/**
 * The booking page script, frontend/ScripMecanico.js: the form check run
 * before a booking is sent, the sanitisers attached to the phone and name
 * inputs, the order appointments are rendered in, and the date and time
 * written into the edit form. Parsing `${fecha}T${hora}` and reading the
 * clock are parameters.
 */
module ScripMecanico {
  import opened Wrappers
  import opened Strings
  import opened Seqs
  import opened Sorting
  import opened AppointmentModel

  /** The messages the form check can answer with, in the order it checks. */
  datatype FormError = Incomplete | BadPhone | BadName | BadDateTime | NotFuture

  /** `/^\d{7,10}$/`. */
  predicate PhoneOk(telefono: string) {
    7 <= |telefono| <= 10 && AllDigits(telefono)
  }

  /** One character of `[a-zA-ZáéíóúÁÉÍÓÚñÑ\s]`. */
  predicate NameChar(c: char) {
    ('a' <= c <= 'z') || ('A' <= c <= 'Z')
    || c == '\U{E1}' || c == '\U{E9}' || c == '\U{ED}' || c == '\U{F3}' || c == '\U{FA}'
    || c == '\U{C1}' || c == '\U{C9}' || c == '\U{CD}' || c == '\U{D3}' || c == '\U{DA}'
    || c == '\U{F1}' || c == '\U{D1}'
    || IsSpace(c)
  }

  /** `/^[a-zA-ZáéíóúÁÉÍÓÚñÑ\s]+$/`. */
  predicate NameOk(nombre: string) {
    nombre != [] && forall i :: 0 <= i < |nombre| ==> NameChar(nombre[i])
  }

  predicate AllFilled(nombre: string, telefono: string, servicio: string, fecha: string, hora: string) {
    nombre != "" && telefono != "" && servicio != "" && fecha != "" && hora != ""
  }

  /** `validarCampos`: the first failing check, or `None` when the booking may be sent. */
  function ValidarCampos(nombre: string, telefono: string, servicio: string, fecha: string, hora: string,
                         parse: DateParser, now: Instant): (r: Option<FormError>)
    ensures r.None? <==>
      && AllFilled(nombre, telefono, servicio, fecha, hora) && PhoneOk(telefono) && NameOk(nombre)
      && parse(fecha + "T" + hora).Some? && parse(fecha + "T" + hora).value > now
    ensures !AllFilled(nombre, telefono, servicio, fecha, hora) ==> r == Some(Incomplete)
    ensures r == Some(BadPhone) <==> AllFilled(nombre, telefono, servicio, fecha, hora) && !PhoneOk(telefono)
    ensures r == Some(BadName) <==>
      AllFilled(nombre, telefono, servicio, fecha, hora) && PhoneOk(telefono) && !NameOk(nombre)
    ensures r == Some(BadDateTime) <==>
      && AllFilled(nombre, telefono, servicio, fecha, hora) && PhoneOk(telefono) && NameOk(nombre)
      && parse(fecha + "T" + hora).None?
    ensures r == Some(NotFuture) <==>
      && AllFilled(nombre, telefono, servicio, fecha, hora) && PhoneOk(telefono) && NameOk(nombre)
      && parse(fecha + "T" + hora).Some? && parse(fecha + "T" + hora).value <= now
  {
    if !AllFilled(nombre, telefono, servicio, fecha, hora) then Some(Incomplete)
    else if !PhoneOk(telefono) then Some(BadPhone)
    else if !NameOk(nombre) then Some(BadName)
    else match parse(fecha + "T" + hora)
      case None => Some(BadDateTime)
      case Some(t) => if t <= now then Some(NotFuture) else None
  }

  /** The phone input handler: drop every non-digit, then keep at most ten characters. */
  function SanitizePhone(s: string): (r: string)
    ensures AllDigits(r) && |r| <= 10
    ensures Subsequence(r, s)
    ensures |Filter(s, IsDigit)| <= 10 ==> r == Filter(s, IsDigit)
    ensures |Filter(s, IsDigit)| > 10 ==> r == Filter(s, IsDigit)[..10]
  {
    var digits := Filter(s, IsDigit);
    if |digits| > 10 then
      SubsequencePrefix(digits, s, 10);
      digits[..10]
    else digits
  }

  /** A prefix of a subsequence is a subsequence. */
  lemma {:induction false} SubsequencePrefix<T>(r: seq<T>, s: seq<T>, n: nat)
    requires Subsequence(r, s) && n <= |r|
    ensures Subsequence(r[..n], s)
  {
    if n > 0 && s != [] {
      if r[0] == s[0] {
        assert r[..n][1..] == r[1..][..n - 1];
        SubsequencePrefix(r[1..], s[1..], n - 1);
      } else {
        SubsequencePrefix(r, s[1..], n);
      }
    }
  }

  lemma SanitizePhoneIdempotent(s: string)
    ensures SanitizePhone(SanitizePhone(s)) == SanitizePhone(s)
  {
    var r := SanitizePhone(s);
    FilterAll(r, IsDigit);
  }

  /** A phone the form accepts passes through the sanitiser unchanged. */
  lemma SanitizePhoneKeepsValid(telefono: string)
    requires PhoneOk(telefono)
    ensures SanitizePhone(telefono) == telefono
  {
    FilterAll(telefono, IsDigit);
  }

  /** The name input handler: drop every character outside the accepted set. */
  function SanitizeName(s: string): (r: string)
    ensures forall i :: 0 <= i < |r| ==> NameChar(r[i])
    ensures forall i :: 0 <= i < |s| && NameChar(s[i]) ==> s[i] in r
    ensures Subsequence(r, s)
    ensures r != [] ==> NameOk(r)
  {
    Filter(s, NameChar)
  }

  lemma SanitizeNameIdempotent(s: string)
    ensures SanitizeName(SanitizeName(s)) == SanitizeName(s)
  {
    FilterAll(SanitizeName(s), NameChar);
  }

  /** The sort key: the appointment's instant (an appointment without one counts as 0). */
  function ScheduledKey(a: Appointment): int {
    a.scheduledAt.GetOr(0)
  }

  /** `citas.sort(...)` in `renderCitasFromServer`: ascending by instant, in place. */
  method SortCitas(citas: array<Appointment>)
    modifies citas
    ensures SortedBy(citas[..], ScheduledKey)
    ensures multiset(citas[..]) == multiset(old(citas[..]))
  {
    SortBy(citas, ScheduledKey);
  }

  /** The local calendar fields of a `Date` (`getMonth` counts from 0). */
  datatype LocalTime = LocalTime(year: nat, month0: nat, day: nat, hours: nat, minutes: nat)

  /** The edit form's date, `${yyyy}-${mm}-${dd}` with month and day padded to two digits. */
  function EditDate(t: LocalTime): (r: string)
    ensures '/' !in r
    ensures Split(r, '-') == [NatToString(t.year), PadTwo(t.month0 + 1), PadTwo(t.day)]
  {
    var y, m, d := NatToString(t.year), PadTwo(t.month0 + 1), PadTwo(t.day);
    DashedDigits(y, m, d);
    y + "-" + m + "-" + d
  }

  /** Three digit strings joined by '-' split back into themselves and hold no '/'. */
  lemma DashedDigits(y: string, m: string, d: string)
    requires AllDigits(y) && AllDigits(m) && AllDigits(d)
    ensures '/' !in y + "-" + m + "-" + d
    ensures Split(y + "-" + m + "-" + d, '-') == [y, m, d]
  {
    NoSeparatorInDigits(y, '-');
    NoSeparatorInDigits(m, '-');
    NoSeparatorInDigits(d, '-');
    NoSeparatorInDigits(y, '/');
    NoSeparatorInDigits(m, '/');
    NoSeparatorInDigits(d, '/');
    SplitThree(y, '-', m, d);
  }

  /** The edit form's time, `${hh}:${min}` with both padded to two digits. */
  function EditTime(t: LocalTime): (r: string)
    ensures Split(r, ':') == [PadTwo(t.hours), PadTwo(t.minutes)]
    ensures t.hours < 100 && t.minutes < 100 ==> |r| == 5
  {
    var h, m := PadTwo(t.hours), PadTwo(t.minutes);
    NoSeparatorInDigits(h, ':');
    NoSeparatorInDigits(m, ':');
    SplitCons(h, ':', m);
    h + ":" + m
  }

  /** The date the edit form writes is one the schema keeps as it is. */
  lemma EditDateIsIso(t: LocalTime)
    ensures IsoDate(EditDate(t)) == EditDate(t)
  {
  }

  /** The time the edit form writes passes the half-hour rule exactly when its
      minutes are 0 or 30. */
  lemma EditTimeHalfHour(t: LocalTime)
    ensures MinuteOf(EditTime(t)) == Some(t.minutes)
    ensures OnHalfHour(EditTime(t)) <==> t.minutes == 0 || t.minutes == 30
  {
  }
}

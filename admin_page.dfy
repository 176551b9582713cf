/**
 * The admin panel script, frontend/admin.js: the status badge class, the
 * search over the cached rows, and the view state (`mode`, `dataCache`) that
 * `load` refreshes from the appointment list or the history. A row is an
 * appointment as the client receives it, every field optional text.
 */
module AdminPage {
  import opened Wrappers
  import opened Strings
  import opened Seqs
  import opened AppointmentModel

  datatype Row = Row(
    email: Option<string>,
    nombre: Option<string>,
    telefono: Option<string>,
    service: Option<string>,
    scheduledAt: Option<string>,
    status: Option<string>)

  /** `badgeClass`: the lower-cased status when it names one, otherwise "scheduled". */
  function BadgeClass(status: Option<string>): (r: string)
    ensures ParseStatus(r).Some?
    ensures ParseStatus(ToLower(OrEmpty(status))).Some? ==> r == ToLower(OrEmpty(status))
    ensures ParseStatus(ToLower(OrEmpty(status))).None? ==> r == "scheduled"
  {
    var s := ToLower(OrEmpty(status));
    if ParseStatus(s).Some? then s else "scheduled"
  }

  /** A badge class is its own badge class. */
  lemma BadgeClassIdempotent(status: Option<string>)
    ensures BadgeClass(Some(BadgeClass(status))) == BadgeClass(status)
  {
    var st := ParseStatus(BadgeClass(status)).value;
    StatusNameLower(st);
  }

  /** Every status the store holds gets its own badge. */
  lemma BadgeOfStoredStatus(s: Status)
    ensures BadgeClass(Some(StatusName(s))) == StatusName(s)
  {
    StatusNameLower(s);
    StatusRoundTrip(s);
  }

  /** The stored spellings of the statuses are lower case already. */
  lemma StatusNameLower(s: Status)
    ensures ToLower(StatusName(s)) == StatusName(s)
  {
    match s
    case Scheduled => ToLowerNoUpper("scheduled");
    case Arrived => ToLowerNoUpper("arrived");
    case Expired => ToLowerNoUpper("expired");
    case Cancelled => ToLowerNoUpper("cancelled");
  }

  /** The search text as `filterData` prepares it: trimmed, then lower-cased. */
  function Query(text: Option<string>): string {
    ToLower(Trim(OrEmpty(text)))
  }

  /** The row matches when one of its lower-cased fields contains the query. */
  predicate RowMatches(a: Row, q: string) {
    || Contains(ToLower(OrEmpty(a.email)), q)
    || Contains(ToLower(OrEmpty(a.nombre)), q)
    || Contains(ToLower(OrEmpty(a.telefono)), q)
    || Contains(ToLower(OrEmpty(a.service)), q)
    || Contains(ToLower(OrEmpty(a.scheduledAt)), q)
  }

  /** `filterData`: the whole cache for a blank query, otherwise the matching rows in order. */
  function FilterData(cache: seq<Row>, text: Option<string>): (r: seq<Row>)
    ensures AllSpace(OrEmpty(text)) ==> r == cache
    ensures !AllSpace(OrEmpty(text)) ==>
      && (forall k :: 0 <= k < |r| ==> r[k] in cache && RowMatches(r[k], Query(text)))
      && (forall k :: 0 <= k < |cache| && RowMatches(cache[k], Query(text)) ==> cache[k] in r)
    ensures Subsequence(r, cache)
  {
    var q := Query(text);
    if q == "" then
      SubsequenceRefl(cache);
      cache
    else Filter(cache, a => RowMatches(a, q))
  }

  /** Every sequence is a subsequence of itself. */
  lemma {:induction false} SubsequenceRefl<T>(s: seq<T>)
    ensures Subsequence(s, s)
  {
    if s != [] {
      SubsequenceRefl(s[1..]);
    }
  }

  /** The arrive button is enabled exactly for a scheduled row. */
  predicate ArriveEnabled(a: Row) {
    a.status == Some("scheduled")
  }

  datatype Mode = Active | HistoryMode

  /** The panel's state. */
  class AdminView {
    var mode: Mode
    var dataCache: seq<Row>

    constructor ()
      ensures mode == Active && dataCache == []
    {
      mode := Active;
      dataCache := [];
    }
  }

  /** The rows `load` keeps from a successful response in the current mode. */
  function Loaded(mode: Mode, response: seq<Row>): (r: seq<Row>)
    ensures mode == HistoryMode ==> r == response
    ensures mode == Active ==>
      && (forall k :: 0 <= k < |r| ==> r[k] in response && ArriveEnabled(r[k]))
      && (forall k :: 0 <= k < |response| && ArriveEnabled(response[k]) ==> response[k] in r)
  {
    if mode == HistoryMode then response else Filter(response, ArriveEnabled)
  }

  /** `load`: a failed request keeps the cache (whatever mode it was loaded in)
      and renders nothing (`None`); a successful one replaces it. The rows rendered
      are the cache filtered by the current search text. */
  method Load(view: AdminView, response: Option<seq<Row>>, search: Option<string>) returns (shown: Option<seq<Row>>)
    modifies view`dataCache
    ensures response.None? ==> view.dataCache == old(view.dataCache)
    ensures response.Some? ==> view.dataCache == Loaded(view.mode, response.value)
    ensures response.Some? ==> shown == Some(FilterData(view.dataCache, search))
    ensures response.None? ==> shown.None?
  {
    if response.None? {
      return None;
    }
    view.dataCache := Loaded(view.mode, response.value);
    shown := Some(FilterData(view.dataCache, search));
  }

  /** The Active and History buttons: switch the mode, then load. */
  method SwitchMode(view: AdminView, mode: Mode, response: Option<seq<Row>>, search: Option<string>)
    returns (shown: Option<seq<Row>>)
    modifies view
    ensures view.mode == mode
    ensures response.None? ==> view.dataCache == old(view.dataCache)
    ensures response.Some? ==> view.dataCache == Loaded(mode, response.value)
    ensures response.Some? ==> shown == Some(FilterData(view.dataCache, search))
    ensures response.None? ==> shown.None?
  {
    view.mode := mode;
    shown := Load(view, response, search);
  }
}

/**
 * The session helpers of frontend/auth.js: reading the token's payload, the
 * expiry rule that ends a session, logging out, and the cart badge in the
 * header. `localStorage` is a map from keys to strings; decoding the base64
 * text into a payload (`atob`, `decodeURIComponent`, `JSON.parse`), the clock
 * and the cart request are parameters.
 */
module AuthClient {
  import opened Wrappers
  import opened Strings
  import opened CartRoutes

  /** The fields of a token payload the page reads; `exp` is in seconds. */
  datatype Payload = Payload(role: Option<string>, exp: Option<int>)

  /** `atob` and the JSON parse of the result: `None` when either throws. */
  type PayloadDecoder = string -> Option<Payload>

  /** One character from the base64url alphabet (section 5 of RFC 4648) to the
      base64 alphabet (section 4). */
  function ToBase64Char(c: char): char {
    if c == '-' then '+' else if c == '_' then '/' else c
  }

  function FromBase64Char(c: char): char {
    if c == '+' then '-' else if c == '/' then '_' else c
  }

  /** `.replace(/-/g, "+").replace(/_/g, "/")`. */
  function ToBase64(s: string): (r: string)
    ensures |r| == |s|
    ensures forall i :: 0 <= i < |s| ==> r[i] == ToBase64Char(s[i])
    ensures '-' !in r && '_' !in r
  {
    if s == [] then [] else [ToBase64Char(s[0])] + ToBase64(s[1..])
  }

  /** The inverse mapping, from base64 back to base64url. */
  function FromBase64(s: string): (r: string)
    ensures |r| == |s|
    ensures forall i :: 0 <= i < |s| ==> r[i] == FromBase64Char(s[i])
    ensures '+' !in r && '/' !in r
  {
    if s == [] then [] else [FromBase64Char(s[0])] + FromBase64(s[1..])
  }

  /** A base64url text maps to base64 and back unchanged. */
  lemma Base64UrlRoundTrip(s: string)
    requires '+' !in s && '/' !in s
    ensures FromBase64(ToBase64(s)) == s
  {
    var r := FromBase64(ToBase64(s));
    forall i | 0 <= i < |s|
      ensures r[i] == s[i]
    {
      assert s[i] != '+' && s[i] != '/';
    }
  }

  /** A base64 text maps to base64url and back unchanged. */
  lemma Base64RoundTrip(s: string)
    requires '-' !in s && '_' !in s
    ensures ToBase64(FromBase64(s)) == s
  {
    var r := ToBase64(FromBase64(s));
    forall i | 0 <= i < |s|
      ensures r[i] == s[i]
    {
      assert s[i] != '-' && s[i] != '_';
    }
  }

  /** `parseJwt`: decode the second '.'-separated segment; any failure, including
      a token with no second segment, gives null (`None`). */
  function ParseJwt(token: string, decode: PayloadDecoder): (r: Option<Payload>)
    ensures '.' !in token ==> r.None?
    ensures |Split(token, '.')| >= 2 ==> r == decode(ToBase64(Split(token, '.')[1]))
  {
    var segments := Split(token, '.');
    if |segments| < 2 then None else decode(ToBase64(segments[1]))
  }

  /** A token built from a header, a base64 payload carried as base64url and a
      signature, none of them holding a '.', yields exactly that payload. */
  lemma ParseJwtOfToken(header: string, body: string, signature: string, decode: PayloadDecoder)
    requires '.' !in header && '.' !in body && '.' !in signature
    requires '-' !in body && '_' !in body
    ensures ParseJwt(header + "." + FromBase64(body) + "." + signature, decode) == decode(body)
  {
    var u := FromBase64(body);
    FromBase64KeepsPoint(body);
    SplitThree(header, '.', u, signature);
    Base64RoundTrip(body);
  }

  lemma FromBase64KeepsPoint(s: string)
    requires '.' !in s
    ensures '.' !in FromBase64(s)
  {
    var r := FromBase64(s);
    forall i | 0 <= i < |r| ensures r[i] != '.' {
      assert s[i] != '.';
    }
  }

  /** `payload.exp && now >= payload.exp * 1000`, with `now` in milliseconds. */
  predicate Expired(p: Payload, now: int) {
    p.exp.Some? && p.exp.value != 0 && now >= p.exp.value * 1000
  }

  /** The browser's `localStorage`. */
  class Storage {
    var items: map<string, string>

    constructor (items: map<string, string>)
      ensures this.items == items
    {
      this.items := items;
    }
  }

  /** `logout`: forget the token and the role. */
  method Logout(storage: Storage)
    modifies storage
    ensures storage.items == old(storage.items) - {"token", "role"}
    ensures "token" !in storage.items && "role" !in storage.items
  {
    storage.items := storage.items - {"token", "role"};
  }

  /** `saveRoleFromToken`: the role the stored token carries, remembered in
      storage; an expired token ends the session. */
  method SaveRoleFromToken(storage: Storage, decode: PayloadDecoder, now: int) returns (role: Option<string>)
    modifies storage
    ensures !HasToken(old(storage.items)) ==> role.None? && storage.items == old(storage.items)
    ensures HasToken(old(storage.items)) && ParseJwt(old(storage.items)["token"], decode).None? ==>
      role.None? && storage.items == old(storage.items)
    ensures HasToken(old(storage.items)) && ParseJwt(old(storage.items)["token"], decode).Some? ==>
      var p := ParseJwt(old(storage.items)["token"], decode).value;
      && (Expired(p, now) ==> role.None? && storage.items == old(storage.items) - {"token", "role"})
      && (!Expired(p, now) && Given(p.role) ==>
            role == p.role && storage.items == old(storage.items)["role" := p.role.value])
      && (!Expired(p, now) && !Given(p.role) ==> role.None? && storage.items == old(storage.items))
  {
    if !HasToken(storage.items) {
      return None;
    }
    var payload := ParseJwt(storage.items["token"], decode);
    if payload.None? {
      return None;
    }
    var p := payload.value;
    if Expired(p, now) {
      Logout(storage);
      return None;
    }
    if Given(p.role) {
      storage.items := storage.items["role" := p.role.value];
      return p.role;
    }
    return None;
  }

  /** `getToken()` is truthy. */
  predicate HasToken(items: map<string, string>) {
    "token" in items && items["token"] != ""
  }

  /** `Number(it.quantity) || 0`: a non-numeric quantity (`None`) contributes 0. */
  function QuantityValue(q: Option<int>): int {
    q.GetOr(0)
  }

  /** The `reduce` in `updateCartCount`: the sum of the item quantities. */
  function CartCount(quantities: seq<Option<int>>): int {
    if quantities == [] then 0 else QuantityValue(quantities[0]) + CartCount(quantities[1..])
  }

  /** The quantities of a cart as the server sends it. */
  function Quantities(items: seq<Entry>): (r: seq<Option<int>>)
    ensures |r| == |items|
    ensures forall k :: 0 <= k < |items| ==> r[k] == Some(items[k].quantity)
  {
    seq(|items|, k requires 0 <= k < |items| => Some(items[k].quantity))
  }

  /** Every entry of a stored cart holds at least one unit, so the count is at
      least the number of entries. */
  lemma {:induction false} CartCountOfStoredCart(items: seq<Entry>)
    requires forall k :: 0 <= k < |items| ==> items[k].quantity > 0
    ensures CartCount(Quantities(items)) >= |items|
  {
    if items != [] {
      CartCountOfStoredCart(items[1..]);
      assert Quantities(items)[1..] == Quantities(items[1..]);
    }
  }

  datatype Badge = Badge(text: string, visible: bool)

  /** `updateCartCount`: `response` is the cart's item quantities, or `None`
      when the request failed or threw. */
  function CartBadge(items: map<string, string>, response: Option<seq<Option<int>>>): (b: Badge)
    ensures b.visible <==> HasToken(items) && response.Some? && CartCount(response.value) > 0
    ensures b.visible ==> AllDigits(b.text) && DigitsValue(b.text) == CartCount(response.value)
    ensures !b.visible ==> b.text == "0"
  {
    if !HasToken(items) || response.None? then Badge("0", false)
    else
      var total := CartCount(response.value);
      if total > 0 then
        NatToStringRoundTrip(total);
        Badge(NatToString(total), true)
      else Badge("0", false)
  }

  /** For a stored cart, the badge is shown exactly when the cart has an entry. */
  lemma BadgeShownIffCartNonEmpty(storage: map<string, string>, cart: seq<Entry>)
    requires HasToken(storage) && WellFormed(cart)
    ensures CartBadge(storage, Some(Quantities(cart))).visible <==> cart != []
  {
    CartCountOfStoredCart(cart);
  }
}

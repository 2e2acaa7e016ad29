/**
  The part of the /webhook handler that shapes a TradingView alert into a resolution query and
  an order check (main.py:312-317 and 348). A JSON key that is absent is None here.
 */
module Alert {
  import opened Wrappers

  /** payload["strategy"]: its "action" and "abs_qty" keys. */
  datatype Strategy = Strategy(action: Option<string>, absQty: Option<int>)

  /** The alert keys the handler reads. */
  datatype Payload = Payload(
    symbol: Option<string>,
    exchange: Option<string>,
    strategy: Option<Strategy>,
    instrument: Option<string>)

  /** The values the handler works with after lines 312-317. */
  datatype Request = Request(symbol: string, exchange: string, action: string, quantity: int, instrument: string)

  function GetOr<T>(o: Option<T>, default: T): T {
    if o.Some? then o.value else default
  }

  predicate IsLower(c: char) {
    'a' <= c <= 'z'
  }

  /** `str.upper()` on ASCII letters. */
  function Upper(s: string): (r: string)
    ensures |r| == |s|
    ensures forall i :: 0 <= i < |r| ==> !IsLower(r[i])
    ensures forall i :: 0 <= i < |s| && !IsLower(s[i]) ==> r[i] == s[i]
    ensures forall i :: 0 <= i < |s| && IsLower(s[i]) ==> r[i] as int == s[i] as int - 32
  {
    if s == [] then []
    else [if IsLower(s[0]) then (s[0] as int - 32) as char else s[0]] + Upper(s[1..])
  }

  /** Upper-casing twice is upper-casing once. */
  lemma UpperIdempotent(s: string)
    ensures Upper(Upper(s)) == Upper(s)
  {
    var u := Upper(s);
    assert forall i :: 0 <= i < |u| ==> Upper(u)[i] == u[i];
  }

  /** Lines 312-317: upper-case symbol and action, default exchange "NSE", instrument "EQ",
      quantity 0, and an absent strategy read as `{}`. */
  function Normalize(p: Payload): Request {
    var strategy := GetOr(p.strategy, Strategy(None, None));
    Request(
      Upper(GetOr(p.symbol, "")),
      GetOr(p.exchange, "NSE"),
      Upper(GetOr(strategy.action, "")),
      GetOr(strategy.absQty, 0),
      GetOr(p.instrument, "EQ"))
  }

  /** The order passes the test at main.py:348, which rejects an action other than BUY or SELL
      and a quantity that is 0 or not positive. */
  predicate OrderIsValid(r: Request) {
    r.action in {"BUY", "SELL"} && r.quantity > 0
  }

  /** An alert passes the check exactly when it carries a strategy whose action reads BUY or SELL
      in any ASCII case and whose abs_qty is positive. */
  lemma AcceptedAlerts(p: Payload)
    ensures OrderIsValid(Normalize(p)) <==>
      && p.strategy.Some?
      && p.strategy.value.action.Some? && Upper(p.strategy.value.action.value) in {"BUY", "SELL"}
      && p.strategy.value.absQty.Some? && p.strategy.value.absQty.value > 0
  {
    if p.strategy.None? || p.strategy.value.action.None? {
      assert Upper("") == "";
    }
  }

  /** The normalised symbol and action hold no lower-case ASCII letter, and normalising is stable:
      feeding the normalised values back in gives the same request. */
  lemma NormalizeStable(p: Payload)
    ensures var r := Normalize(p);
      && (forall i :: 0 <= i < |r.symbol| ==> !IsLower(r.symbol[i]))
      && Normalize(Payload(Some(r.symbol), Some(r.exchange), Some(Strategy(Some(r.action), Some(r.quantity))), Some(r.instrument))) == r
  {
    var r := Normalize(p);
    UpperIdempotent(GetOr(p.symbol, ""));
    UpperIdempotent(GetOr(GetOr(p.strategy, Strategy(None, None)).action, ""));
  }

  /** An empty alert normalises to the defaults and is rejected; "sell" with 5 is accepted. */
  lemma DefaultsAndCase()
    ensures Normalize(Payload(None, None, None, None)) == Request("", "NSE", "", 0, "EQ")
    ensures !OrderIsValid(Normalize(Payload(None, None, None, None)))
    ensures OrderIsValid(Normalize(Payload(Some("infy"), None, Some(Strategy(Some("sell"), Some(5))), None)))
  {
    assert Upper("") == "";
    assert Upper("sell") == "SELL";
  }
}

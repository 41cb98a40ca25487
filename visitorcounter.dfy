/** The serverless visitor counter: one request reads the total and the caller's
    visitor record, decides whether the visit counts (new visitor, or more than a day
    since the last counted visit, and not a bot), and when it counts bumps the total
    and rewrites the record. */
module VisitorCounter {
  import opened Wrappers
  import opened JsText

  // ---- Bot detection ----

  /** The substrings that mark a user agent as a bot. */
  const BOT_KEYWORDS: seq<string> := ["bot", "crawler", "spider", "scraper", "curl", "wget", "python-requests"]

  function LowerChar(c: char): char {
    if 'A' <= c <= 'Z' then (c as int + 32) as char else c
  }

  /** `str.lower()` on the ASCII letters; every other character is kept. */
  function Lower(s: string): (r: string)
    ensures |r| == |s|
    ensures forall i :: 0 <= i < |s| ==> r[i] == LowerChar(s[i])
  {
    seq(|s|, i requires 0 <= i < |s| => LowerChar(s[i]))
  }

  /** `sub` occurs in `s` starting at index `i`. */
  predicate OccursAt(s: string, sub: string, i: int) {
    0 <= i && i + |sub| <= |s| && s[i..i + |sub|] == sub
  }

  /** Python's `sub in s`. */
  predicate Contains(s: string, sub: string) {
    exists i :: 0 <= i <= |s| && OccursAt(s, sub, i)
  }

  /** Whether one of `keywords` occurs in `s`. */
  function AnyIn(s: string, keywords: seq<string>): (b: bool)
    ensures b <==> exists k :: 0 <= k < |keywords| && Contains(s, keywords[k])
  {
    if keywords == [] then false
    else Contains(s, keywords[0]) || AnyIn(s, keywords[1..])
  }

  /** `any(keyword in user_agent.lower() for keyword in bot_keywords)`. */
  function IsBot(userAgent: string): (b: bool)
    ensures b <==> exists k :: 0 <= k < |BOT_KEYWORDS| && Contains(Lower(userAgent), BOT_KEYWORDS[k])
  {
    AnyIn(Lower(userAgent), BOT_KEYWORDS)
  }

  // ---- The table ----

  /** A stored visitor record; attributes that older records may lack are optional. */
  datatype Visitor = Visitor(lastVisit: Option<int>, ipHash: string, userAgent: string, visitCount: Option<int>)

  /** The id of the item holding the total. */
  const COUNT_ID := "visitor-count"

  /** `visitor_` followed by the first 16 hex digits of the IP's SHA-256 digest. */
  function VisitorKey(digest: string): (key: string)
    ensures key != COUNT_ID
    ensures |key| <= 24
  {
    var key := "visitor_" + Take(digest, 16);
    assert key[7] == '_' && COUNT_ID[7] == '-';
    key
  }

  /** The whole table: the total item's `count` and `last_updated` attributes (`None`
      when the item or the attribute is absent), and the visitor items by id. */
  datatype Table = Table(count: Option<int>, lastUpdated: Option<int>, visitors: map<string, Visitor>)

  /** The parts of the API Gateway event the handler reads; `None` is a missing key. */
  datatype Request = Request(sourceIp: Option<string>, userAgent: Option<string>)

  datatype VisitType = NewVisitor | ReturningVisitor | DuplicateWithin24h | BotFiltered

  /** The handler's answer: status 200 with the count, the visit type and the bot flag, or
      status 500 with an error message and no count. */
  datatype Response = Ok(count: int, visitType: VisitType, isBot: bool) | ServerError

  function StatusCode(r: Response): int {
    if r.Ok? then 200 else 500
  }

  // ---- Deciding ----

  /** `(current_timestamp - last_visit) / 3600`, Python's true division. */
  function HoursSince(now: int, last: int): real {
    (now - last) as real / 3600.0
  }

  /** The 24-hour test on hours is the same as a test on whole seconds. */
  lemma DayInSeconds(now: int, last: int)
    ensures HoursSince(now, last) >= 24.0 <==> now - last >= 86400
  {
    var x := (now - last) as real;
    assert x / 3600.0 * 3600.0 == x;
  }

  datatype Decision = Decision(counts: bool, visitType: VisitType)

  /** Whether the visit counts, and its type, from the caller's record, the clock and the
      bot flag. */
  function Decide(record: Option<Visitor>, now: int, isBot: bool): (d: Decision)
    ensures isBot ==> d == Decision(false, BotFiltered)
    ensures !isBot && record.None? ==> d == Decision(true, NewVisitor)
    ensures !isBot && record.Some? ==>
      d.counts == (now - record.value.lastVisit.GetOr(0) >= 86400) &&
      d.visitType == (if d.counts then ReturningVisitor else DuplicateWithin24h)
    ensures d.counts <==> d.visitType == NewVisitor || d.visitType == ReturningVisitor
  {
    if isBot then Decision(false, BotFiltered)
    else if record.None? then Decision(true, NewVisitor)
    else
      var last := record.value.lastVisit.GetOr(0);
      DayInSeconds(now, last);
      if HoursSince(now, last) >= 24.0 then Decision(true, ReturningVisitor)
      else Decision(false, DuplicateWithin24h)
  }

  /** The record written for a counted visit. */
  function NewRecord(previous: Option<Visitor>, now: int, ipHash: string, userAgent: string): (v: Visitor)
    ensures v.lastVisit == Some(now) && v.ipHash == ipHash
    ensures v.userAgent <= userAgent && |v.userAgent| <= 200
    ensures |userAgent| <= 200 ==> v.userAgent == userAgent
    ensures |userAgent| > 200 ==> |v.userAgent| == 200
    ensures v.visitCount == Some(if previous.Some? then previous.value.visitCount.GetOr(0) + 1 else 1)
  {
    var prior := if previous.Some? then previous.value.visitCount.GetOr(0) else 0;
    Visitor(Some(now), ipHash, Take(userAgent, 200), Some(prior + 1))
  }

  function Lookup(t: Table, key: string): Option<Visitor> {
    if key in t.visitors then Some(t.visitors[key]) else None
  }

  /** One invocation of the handler on table `t` at time `now`; `hexDigest` is SHA-256
      in hex. The new table and the response. */
  function Serve(t: Table, req: Request, now: int, hexDigest: string -> string): (r: (Table, Response))
    ensures r.1.ServerError? ==> r.0 == t && t.count.None?
    ensures r.0 == t || (t.count.Some? && r.0.count == Some(t.count.value + 1) && r.0.lastUpdated == Some(now))
    ensures IsBot(req.userAgent.GetOr("")) ==> r.0 == t && r.1.Ok? && r.1.visitType == BotFiltered
  {
    var userAgent := req.userAgent.GetOr("");
    var isBot := IsBot(userAgent);
    var ipHash := Take(hexDigest(req.sourceIp.GetOr("unknown")), 16);
    var key := VisitorKey(hexDigest(req.sourceIp.GetOr("unknown")));
    var record := Lookup(t, key);
    var d := Decide(record, now, isBot);
    if !d.counts then
      (t, Ok(t.count.GetOr(0), d.visitType, isBot))
    else if t.count.None? then
      (t, ServerError)
    else
      (Table(Some(t.count.value + 1), Some(now), t.visitors[key := NewRecord(record, now, ipHash, userAgent)]),
       Ok(t.count.value + 1, d.visitType, isBot))
  }

  /** The DynamoDB table the handler uses, updated in place. */
  class VisitorTable {
    var count: Option<int>
    var lastUpdated: Option<int>
    var visitors: map<string, Visitor>

    function Contents(): Table
      reads this
    {
      Table(count, lastUpdated, visitors)
    }

    constructor (initial: Table)
      ensures Contents() == initial
    {
      count, lastUpdated, visitors := initial.count, initial.lastUpdated, initial.visitors;
    }

    /** `lambda_handler`. The only failure modelled is the update expression
        `#count + :inc` meeting an absent `count`, which DynamoDB rejects; it is raised
        before anything is written. */
    method Handle(req: Request, now: int, hexDigest: string -> string) returns (resp: Response)
      modifies this
      ensures (Contents(), resp) == Serve(old(Contents()), req, now, hexDigest)
    {
      var sourceIp := req.sourceIp.GetOr("unknown");
      var userAgent := req.userAgent.GetOr("");
      var isBot := IsBot(userAgent);
      var ipHash := Take(hexDigest(sourceIp), 16);
      var visitorKey := VisitorKey(hexDigest(sourceIp));

      var currentCount := count.GetOr(0);
      var record := if visitorKey in visitors then Some(visitors[visitorKey]) else None;

      var shouldIncrement := false;
      var visitType: VisitType;
      if record.None? {
        shouldIncrement := true;
        visitType := NewVisitor;
      } else {
        var lastVisit := record.value.lastVisit.GetOr(0);
        var hoursSinceVisit := (now - lastVisit) as real / 3600.0;
        if hoursSinceVisit >= 24.0 {
          shouldIncrement := true;
          visitType := ReturningVisitor;
        } else {
          shouldIncrement := false;
          visitType := DuplicateWithin24h;
        }
      }

      if isBot {
        shouldIncrement := false;
        visitType := BotFiltered;
      }

      if shouldIncrement {
        if count.None? {
          return ServerError;
        }
        count := Some(count.value + 1);
        lastUpdated := Some(now);
        var prior := if record.Some? then record.value.visitCount.GetOr(0) else 0;
        visitors := visitors[visitorKey := Visitor(Some(now), ipHash, Take(userAgent, 200), Some(prior + 1))];
        currentCount := currentCount + 1;
      }

      resp := Ok(currentCount, visitType, isBot);
    }
  }

  // ---- Properties of one invocation ----

  /** A bot's request never counts and writes nothing, whatever its record says. */
  lemma BotNeverCounts(t: Table, req: Request, now: int, hexDigest: string -> string)
    requires IsBot(req.userAgent.GetOr(""))
    ensures Serve(t, req, now, hexDigest) == (t, Ok(t.count.GetOr(0), BotFiltered, true))
  {
  }

  /** A human with no record counts as a new visitor. */
  lemma NewVisitorCounts(t: Table, req: Request, now: int, hexDigest: string -> string, c: int)
    requires !IsBot(req.userAgent.GetOr("")) && t.count == Some(c)
    requires VisitorKey(hexDigest(req.sourceIp.GetOr("unknown"))) !in t.visitors
    ensures Serve(t, req, now, hexDigest).1 == Ok(c + 1, NewVisitor, false)
  {
  }

  /** A human with a record counts again exactly when a full day (86400 s) has passed
      since its `last_visit`, a missing one being 0. */
  lemma ReturningVisitorCounts(t: Table, req: Request, now: int, hexDigest: string -> string)
    requires !IsBot(req.userAgent.GetOr("")) && t.count.Some?
    requires VisitorKey(hexDigest(req.sourceIp.GetOr("unknown"))) in t.visitors
    ensures var v := t.visitors[VisitorKey(hexDigest(req.sourceIp.GetOr("unknown")))];
      var r := Serve(t, req, now, hexDigest).1;
      if now - v.lastVisit.GetOr(0) >= 86400 then r == Ok(t.count.value + 1, ReturningVisitor, false)
      else r == Ok(t.count.value, DuplicateWithin24h, false)
  {
  }

  /** A visit that does not count leaves the table exactly as it was. */
  lemma NotCountingWritesNothing(t: Table, req: Request, now: int, hexDigest: string -> string)
    requires !Decide(Lookup(t, VisitorKey(hexDigest(req.sourceIp.GetOr("unknown")))), now,
                     IsBot(req.userAgent.GetOr(""))).counts
    ensures Serve(t, req, now, hexDigest).0 == t
  {
  }

  /** The total only ever moves by one, and a successful answer reports the total read at
      the start (0 when absent) plus one exactly when the visit counted. */
  lemma CountMovesByOne(t: Table, req: Request, now: int, hexDigest: string -> string)
    ensures var (t', r) := Serve(t, req, now, hexDigest);
      (t' == t || (t.count.Some? && t'.count == Some(t.count.value + 1))) &&
      (r.Ok? ==> r.count == t.count.GetOr(0) + (if t' == t then 0 else 1)) &&
      (r.Ok? ==> (r.visitType == NewVisitor || r.visitType == ReturningVisitor) == (t' != t))
  {
    var (t', r) := Serve(t, req, now, hexDigest);
    if t' != t {
      assert t'.count == Some(t.count.value + 1);
    }
  }

  /** A failed update writes nothing and answers 500. */
  lemma FailureWritesNothing(t: Table, req: Request, now: int, hexDigest: string -> string)
    requires Serve(t, req, now, hexDigest).1 == ServerError
    ensures Serve(t, req, now, hexDigest).0 == t && t.count.None?
    ensures StatusCode(Serve(t, req, now, hexDigest).1) == 500
  {
  }

  /** A counted visit rewrites the caller's record (timestamp, hash, user agent cut to 200
      characters, visit count one more), stamps `last_updated`, and touches no other
      visitor's record. */
  lemma CountedVisitRecord(t: Table, req: Request, now: int, hexDigest: string -> string)
    requires Serve(t, req, now, hexDigest).0 != t
    ensures var key := VisitorKey(hexDigest(req.sourceIp.GetOr("unknown")));
      var t' := Serve(t, req, now, hexDigest).0;
      var ua := req.userAgent.GetOr("");
      key in t'.visitors && t'.lastUpdated == Some(now) &&
      t'.visitors[key] == Visitor(Some(now), Take(hexDigest(req.sourceIp.GetOr("unknown")), 16), Take(ua, 200),
                                  Some(if key in t.visitors then t.visitors[key].visitCount.GetOr(0) + 1 else 1)) &&
      t'.visitors.Keys == t.visitors.Keys + {key} &&
      forall other :: other in t.visitors && other != key ==> t'.visitors[other] == t.visitors[other]
  {
  }

  // ---- Properties of several invocations ----

  /** The de-duplication promise: after a counted visit, the same client is not counted
      again for the next 24 hours. */
  lemma {:induction false} SecondVisitWithinDay(t: Table, req: Request, now: int, later: int, hexDigest: string -> string)
    requires Serve(t, req, now, hexDigest).0 != t
    requires now <= later < now + 86400
    ensures var t' := Serve(t, req, now, hexDigest).0;
      Serve(t', req, later, hexDigest).0 == t' &&
      Serve(t', req, later, hexDigest).1 == Ok(t'.count.value, DuplicateWithin24h, false)
  {
    CountedVisitRecord(t, req, now, hexDigest);
    var t' := Serve(t, req, now, hexDigest).0;
    var key := VisitorKey(hexDigest(req.sourceIp.GetOr("unknown")));
    assert Lookup(t', key) == Some(t'.visitors[key]);
    assert t'.visitors[key].lastVisit == Some(now);
  }

  /** A day later the same client counts again, as a returning visitor. */
  lemma {:induction false} SecondVisitNextDay(t: Table, req: Request, now: int, later: int, hexDigest: string -> string)
    requires Serve(t, req, now, hexDigest).0 != t
    requires later >= now + 86400
    ensures var t' := Serve(t, req, now, hexDigest).0;
      Serve(t', req, later, hexDigest).1 == Ok(t'.count.value + 1, ReturningVisitor, false)
  {
    CountedVisitRecord(t, req, now, hexDigest);
    var t' := Serve(t, req, now, hexDigest).0;
    var key := VisitorKey(hexDigest(req.sourceIp.GetOr("unknown")));
    assert Lookup(t', key) == Some(t'.visitors[key]);
    assert t'.visitors[key].lastVisit == Some(now);
  }

  // ---- Properties of the bot check ----

  lemma LowerIdempotent(s: string)
    ensures Lower(Lower(s)) == Lower(s)
  {
  }

  /** The check ignores ASCII case. */
  lemma BotCheckIgnoresCase(userAgent: string)
    ensures IsBot(Lower(userAgent)) == IsBot(userAgent)
  {
    LowerIdempotent(userAgent);
  }

  lemma LowerConcat(a: string, b: string)
    ensures Lower(a + b) == Lower(a) + Lower(b)
  {
  }

  lemma ContainsExtends(s: string, sub: string, before: string, after: string)
    requires Contains(s, sub)
    ensures Contains(before + s + after, sub)
  {
    var i :| 0 <= i <= |s| && OccursAt(s, sub, i);
    var j := |before| + i;
    assert (before + s + after)[j..j + |sub|] == s[i..i + |sub|];
    assert OccursAt(before + s + after, sub, j);
  }

  /** Text around a bot's user agent does not hide it: the check looks for substrings. */
  lemma {:induction false} BotAnywhere(userAgent: string, before: string, after: string)
    requires IsBot(userAgent)
    ensures IsBot(before + userAgent + after)
  {
    var k :| 0 <= k < |BOT_KEYWORDS| && Contains(Lower(userAgent), BOT_KEYWORDS[k]);
    LowerConcat(before + userAgent, after);
    LowerConcat(before, userAgent);
    ContainsExtends(Lower(userAgent), BOT_KEYWORDS[k], Lower(before), Lower(after));
  }

  /** Every keyword, in any ASCII case, marks a bot on its own. */
  lemma {:induction false} KeywordIsBot(userAgent: string, k: int)
    requires 0 <= k < |BOT_KEYWORDS| && Lower(userAgent) == BOT_KEYWORDS[k]
    ensures IsBot(userAgent)
  {
    assert OccursAt(Lower(userAgent), BOT_KEYWORDS[k], 0);
    assert Contains(Lower(userAgent), BOT_KEYWORDS[k]);
  }
}

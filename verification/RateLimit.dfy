/**
  The sliding-window rate limiter: the Lua script as one atomic step over a
  sorted set with a key expiry, and the Python code around it.
 */
module RateLimit {
  import opened Common
  import opened Strings

  const WINDOW_MS: nat := 60_000
  const EXPIRY_SLACK_MS: nat := 1_000

  /** A sorted-set element.  Scores are request times in milliseconds. */
  datatype Entry = Entry(score: nat, member: string)

  /** The value under one caller's key, in score order, and when Redis deletes it. */
  datatype Window = Window(entries: seq<Entry>, expireAt: Option<nat>)

  /** What the script returns: {1, count + 1, 0} or {0, count, oldest}. */
  datatype Reply = Reply(allowed: bool, count: nat, oldest: nat)

  // ------------------------------------------------------------ Redis commands

  /** The entries a ZREMRANGEBYSCORE from 0 to `cutoff` leaves. */
  function Recent(entries: seq<Entry>, cutoff: int): (r: seq<Entry>)
    ensures |r| <= |entries|
  {
    if entries == [] then []
    else
      var e := Last(entries);
      if e.score > cutoff then Recent(Front(entries), cutoff) + [e] else Recent(Front(entries), cutoff)
  }

  function RemoveMember(entries: seq<Entry>, member: string): seq<Entry> {
    if entries == [] then []
    else
      var e := Last(entries);
      if e.member == member then RemoveMember(Front(entries), member)
      else RemoveMember(Front(entries), member) + [e]
  }

  /** Keeps score order; ties come after, which ZRANGE 0 0 WITHSCORES cannot tell. */
  function InsertByScore(entries: seq<Entry>, e: Entry): seq<Entry> {
    if entries == [] || Last(entries).score <= e.score then entries + [e]
    else InsertByScore(Front(entries), e) + [Last(entries)]
  }

  /** ZADD: a member already present is moved to its new score. */
  function ZAdd(entries: seq<Entry>, e: Entry): seq<Entry> {
    InsertByScore(RemoveMember(entries, e.member), e)
  }

  /** The entries Redis still has at `now`; an expired key reads as absent. */
  function Unexpired(w: Window, now: nat): seq<Entry> {
    if w.expireAt.Some? && now > w.expireAt.value then [] else w.entries
  }

  /** The script.  `expiring` false is the same script without its PEXPIRE. */
  function Script(expiring: bool, w: Window, now: nat, limit: int, member: string): (Window, Reply) {
    var kept := Recent(Unexpired(w, now), now - WINDOW_MS);
    var expireAt := if Unexpired(w, now) == [] || kept == [] then None else w.expireAt;
    if |kept| < limit then
      (Window(ZAdd(kept, Entry(now, member)),
              if expiring then Some(now + WINDOW_MS + EXPIRY_SLACK_MS) else expireAt),
       Reply(true, |kept| + 1, 0))
    else
      (Window(kept, expireAt), Reply(false, |kept|, if kept == [] then 0 else kept[0].score))
  }

  // ------------------------------------------------------------------ the class

  datatype Decision = Decision(allowed: bool, limit: int, remaining: int, retryAfterSeconds: int)

  /** Python's int(x / d): truncation toward zero. */
  function TruncDiv(x: int, d: nat): int
    requires d > 0
  {
    if x >= 0 then x / d else -((-x) / d)
  }

  function RetryAfter(oldest: int, now: int): int {
    Max(1, TruncDiv(oldest + WINDOW_MS - now, 1000) + 1)
  }

  function Decide(reply: Reply, limit: int, now: nat): Decision {
    if reply.allowed then Decision(true, limit, limit - reply.count, 0)
    else Decision(false, limit, 0, RetryAfter(reply.oldest, now))
  }

  const NO_WINDOW := Window([], None)

  function Key(tier: string, user: string): string {
    "ratelimit:" + tier + ":" + user
  }

  /** Tier names have no colon, so two callers share a window only if they are the same. */
  lemma CallersAreIndependent(tier: string, user: string, tier': string, user': string)
    requires ':' !in tier && ':' !in tier'
    ensures Key(tier, user) == Key(tier', user') <==> tier == tier' && user == user'
  {
    if Key(tier, user) == Key(tier', user') {
      var p := "ratelimit:";
      assert tier + ":" + user == Key(tier, user)[|p|..];
      assert tier' + ":" + user' == Key(tier', user')[|p|..];
      SplitAtFirstColon(tier, user, tier', user');
    }
  }

  /** One call of the limiter; `reachable` false is a RedisError. */
  datatype Call =
    | Checked(tier: string, user: string, now: nat, member: string, reachable: bool)
    | Cleared(tier: string, user: string, reachable: bool)

  type Store = map<string, Window>

  function WindowIn(store: Store, key: string): Window {
    if key in store then store[key] else NO_WINDOW
  }

  /** What a call leaves in Redis, when the caller's limit is `limit`. */
  function Stored(store: Store, limit: int, call: Call): Store {
    var key := Key(call.tier, call.user);
    if !call.reachable then store
    else match call
      case Checked(_, _, now, member, _) => store[key := Script(true, WindowIn(store, key), now, limit, member).0]
      case Cleared(_, _, _) => store - {key}
  }

  /** What a check answers, when the caller's limit is `limit`. */
  function Decided(store: Store, limit: int, call: Call): Decision
    requires call.Checked?
  {
    if !call.reachable then Decision(true, limit, limit, 0)
    else
      var w := WindowIn(store, Key(call.tier, call.user));
      Decide(Script(true, w, call.now, limit, call.member).1, limit, call.now)
  }

  class RateLimiter {
    const configured: bool  // whether there is a Redis client at all
    var store: Store

    constructor (configured: bool)
      ensures this.configured == configured && store == map[]
    {
      this.configured, store := configured, map[];
    }

    function WindowOf(key: string): Window
      reads this
    {
      WindowIn(store, key)
    }

    /** `reachable` false is a RedisError: the caller is let through and nothing changes. */
    method Check(tier: string, user: string, limit: int, now: nat, member: string, reachable: bool)
      returns (decision: Decision)
      modifies this
      ensures !configured || !reachable ==>
        store == old(store) && decision == Decision(true, limit, limit, 0)
      ensures configured ==>
        var call := Checked(tier, user, now, member, reachable);
        store == Stored(old(store), limit, call) && decision == Decided(old(store), limit, call)
      ensures forall key | key != Key(tier, user) :: WindowOf(key) == old(WindowOf(key))
    {
      if !configured || !reachable {
        return Decision(true, limit, limit, 0);
      }
      var key := Key(tier, user);
      var (w, reply) := Script(true, WindowOf(key), now, limit, member);
      store := store[key := w];
      if reply.allowed {
        decision := Decision(true, limit, limit - reply.count, 0);
      } else {
        var wait := reply.oldest + WINDOW_MS - now;
        decision := Decision(false, limit, 0, Max(1, TruncDiv(wait, 1000) + 1));
      }
    }

    /** reset(): support tooling deletes the caller's key. */
    method Reset(tier: string, user: string, reachable: bool)
      modifies this
      ensures configured ==> forall limit :: store == Stored(old(store), limit, Cleared(tier, user, reachable))
      ensures !configured ==> store == old(store)
      ensures WindowOf(Key(tier, user)) == if configured && reachable then NO_WINDOW else old(WindowOf(Key(tier, user)))
      ensures forall key | key != Key(tier, user) :: WindowOf(key) == old(WindowOf(key))
    {
      if configured && reachable {
        store := store - {Key(tier, user)};
      }
    }
  }

  // ------------------------------------------------------------ runs of requests

  datatype Request = Request(now: nat, member: string)

  /** One caller's history: the window, every admission ever made, the last reply. */
  datatype Trace = Trace(window: Window, admitted: seq<Entry>, reply: Reply)

  function Next(expiring: bool, limit: int, t: Trace, r: Request): Trace {
    var (w, reply) := Script(expiring, t.window, r.now, limit, r.member);
    Trace(w, if reply.allowed then t.admitted + [Entry(r.now, r.member)] else t.admitted, reply)
  }

  function Serve(expiring: bool, limit: int, requests: seq<Request>): Trace {
    if requests == [] then Trace(NO_WINDOW, [], Reply(false, 0, 0))
    else Next(expiring, limit, Serve(expiring, limit, Front(requests)), Last(requests))
  }

  /** The reply of a limiter that never forgets an admission and looks at the last WINDOW_MS. */
  function ReplyFrom(admitted: seq<Entry>, now: nat, limit: int): Reply {
    var recent := Recent(admitted, now - WINDOW_MS);
    if |recent| < limit then Reply(true, |recent| + 1, 0)
    else Reply(false, |recent|, if recent == [] then 0 else recent[0].score)
  }

  /** The admissions that limiter makes. */
  function Log(limit: int, requests: seq<Request>): seq<Entry> {
    if requests == [] then []
    else
      var before := Log(limit, Front(requests));
      var r := Last(requests);
      if ReplyFrom(before, r.now, limit).allowed then before + [Entry(r.now, r.member)] else before
  }

  /** The clock does not go back, and no two requests have the same member. */
  predicate WellTimed(requests: seq<Request>) {
    && (forall j, k | 0 <= j < k < |requests| :: requests[j].now <= requests[k].now)
    && (forall j, k | 0 <= j < k < |requests| :: requests[j].member != requests[k].member)
  }

  ghost predicate InOrder(entries: seq<Entry>) {
    forall j, k | 0 <= j < k < |entries| :: entries[j].score <= entries[k].score
  }

  lemma {:induction false} RecentMembers(entries: seq<Entry>, cutoff: int, e: Entry)
    ensures e in Recent(entries, cutoff) <==> e in entries && e.score > cutoff
  {
    if entries != [] {
      RecentMembers(Front(entries), cutoff, e);
      assert entries == Front(entries) + [Last(entries)];
    }
  }

  lemma RecentAppend(entries: seq<Entry>, e: Entry, cutoff: int)
    ensures Recent(entries + [e], cutoff) == Recent(entries, cutoff) + if e.score > cutoff then [e] else []
  {
    assert Front(entries + [e]) == entries;
  }

  lemma {:induction false} RecentRecent(entries: seq<Entry>, a: int, b: int)
    requires a <= b
    ensures Recent(Recent(entries, a), b) == Recent(entries, b)
  {
    if entries != [] {
      RecentRecent(Front(entries), a, b);
      var e := Last(entries);
      var r := Recent(Front(entries), a);
      RecentAppend(r, e, b);
    }
  }

  lemma {:induction false} RecentNone(entries: seq<Entry>, cutoff: int)
    requires forall k | 0 <= k < |entries| :: entries[k].score <= cutoff
    ensures Recent(entries, cutoff) == []
  {
    if entries != [] {
      RecentNone(Front(entries), cutoff);
    }
  }

  lemma {:induction false} RecentAll(entries: seq<Entry>, cutoff: int)
    requires forall k | 0 <= k < |entries| :: entries[k].score > cutoff
    ensures Recent(entries, cutoff) == entries
  {
    if entries != [] {
      RecentAll(Front(entries), cutoff);
      assert entries == Front(entries) + [Last(entries)];
    }
  }

  lemma {:induction false} RemoveAbsent(entries: seq<Entry>, member: string)
    requires forall k | 0 <= k < |entries| :: entries[k].member != member
    ensures RemoveMember(entries, member) == entries
  {
    if entries != [] {
      RemoveAbsent(Front(entries), member);
      assert entries == Front(entries) + [Last(entries)];
    }
  }

  /** Every admission is one of the requests. */
  ghost predicate FromRequests(admitted: seq<Entry>, requests: seq<Request>) {
    forall j | 0 <= j < |admitted| :: IsRequest(admitted[j], requests)
  }

  ghost predicate IsRequest(e: Entry, requests: seq<Request>) {
    exists k :: 0 <= k < |requests| && e == Entry(requests[k].now, requests[k].member)
  }

  /** The stored window is the log's tail as of the last request, and expires after it. */
  ghost predicate Tracks(t: Trace, requests: seq<Request>) {
    && InOrder(t.admitted)
    && (requests == [] ==> t.window == NO_WINDOW && t.admitted == [])
    && (requests != [] ==> t.window.entries == Recent(t.admitted, Last(requests).now - WINDOW_MS))
    && (t.window.expireAt.Some? ==>
          && t.admitted != []
          && t.window.expireAt.value == Last(t.admitted).score + WINDOW_MS + EXPIRY_SLACK_MS)
  }

  /** What a check at `now` sees is the admission log restricted to the current window. */
  lemma TrimmedIsLog(t: Trace, requests: seq<Request>, now: nat)
    requires Tracks(t, requests)
    requires requests != [] ==> Last(requests).now <= now
    ensures Recent(Unexpired(t.window, now), now - WINDOW_MS) == Recent(t.admitted, now - WINDOW_MS)
  {
    if t.window.expireAt.Some? && now > t.window.expireAt.value {
      RecentNone(t.admitted, now - WINDOW_MS);
    } else if requests != [] {
      RecentRecent(t.admitted, Last(requests).now - WINDOW_MS, now - WINDOW_MS);
    }
  }

  /** ZADD of a new member with the latest score appends it. */
  lemma AddIsAppend(entries: seq<Entry>, e: Entry)
    requires forall k | 0 <= k < |entries| :: entries[k].score <= e.score && entries[k].member != e.member
    ensures ZAdd(entries, e) == entries + [e]
  {
    RemoveAbsent(entries, e.member);
  }

  lemma AdmittedBefore(admitted: seq<Entry>, requests: seq<Request>, e: Entry)
    requires requests != [] && WellTimed(requests) && FromRequests(admitted, Front(requests)) && e in admitted
    ensures e.score <= Last(requests).now && e.member != Last(requests).member
  {
    assert IsRequest(e, Front(requests));
  }

  lemma RecentAddIsAppend(admitted: seq<Entry>, requests: seq<Request>)
    requires requests != [] && WellTimed(requests) && FromRequests(admitted, Front(requests))
    ensures var r := Last(requests);
      var recent := Recent(admitted, r.now - WINDOW_MS);
      ZAdd(recent, Entry(r.now, r.member)) == recent + [Entry(r.now, r.member)]
  {
    var r := Last(requests);
    var recent := Recent(admitted, r.now - WINDOW_MS);
    forall k | 0 <= k < |recent| ensures recent[k].score <= r.now && recent[k].member != r.member {
      RecentMembers(admitted, r.now - WINDOW_MS, recent[k]);
      AdmittedBefore(admitted, requests, recent[k]);
    }
    AddIsAppend(recent, Entry(r.now, r.member));
  }

  lemma AppendFromRequests(admitted: seq<Entry>, requests: seq<Request>)
    requires requests != [] && WellTimed(requests) && FromRequests(admitted, Front(requests)) && InOrder(admitted)
    ensures FromRequests(admitted, requests)
    ensures var grown := admitted + [Entry(Last(requests).now, Last(requests).member)];
      FromRequests(grown, requests) && InOrder(grown)
  {
    forall j | 0 <= j < |admitted| ensures IsRequest(admitted[j], requests) {
      assert IsRequest(admitted[j], Front(requests));
      var k :| 0 <= k < |requests| - 1 && admitted[j] == Entry(Front(requests)[k].now, Front(requests)[k].member);
      assert requests[k] == Front(requests)[k];
      AdmittedBefore(admitted, requests, admitted[j]);
    }
    var e := Entry(Last(requests).now, Last(requests).member);
    assert IsRequest(e, requests) by {
      assert requests[|requests| - 1] == Last(requests);
    }
    forall j | 0 <= j < |admitted| ensures admitted[j].score <= e.score {
      AdmittedBefore(admitted, requests, admitted[j]);
    }
  }

  /** One request's effect on the window, given that ZADD appends. */
  lemma ScriptTracks(expiring: bool, limit: int, w: Window, admitted: seq<Entry>, e: Entry)
    requires Recent(Unexpired(w, e.score), e.score - WINDOW_MS) == Recent(admitted, e.score - WINDOW_MS)
    requires ZAdd(Recent(admitted, e.score - WINDOW_MS), e) == Recent(admitted, e.score - WINDOW_MS) + [e]
    ensures var (u, reply) := Script(expiring, w, e.score, limit, e.member);
      && reply == ReplyFrom(admitted, e.score, limit)
      && u.entries == Recent(if reply.allowed then admitted + [e] else admitted, e.score - WINDOW_MS)
      && u.expireAt == (if reply.allowed && expiring then Some(e.score + WINDOW_MS + EXPIRY_SLACK_MS)
                        else if Unexpired(w, e.score) == [] || Recent(admitted, e.score - WINDOW_MS) == [] then None
                        else w.expireAt)
  {
    RecentAppend(admitted, e, e.score - WINDOW_MS);
  }

  lemma LatestRequest(requests: seq<Request>)
    requires requests != [] && WellTimed(requests)
    ensures WellTimed(Front(requests))
    ensures Front(requests) != [] ==> Last(Front(requests)).now <= Last(requests).now
  {
  }

  lemma NextTracks(expiring: bool, limit: int, t: Trace, requests: seq<Request>)
    requires requests != [] && WellTimed(requests)
    requires Tracks(t, Front(requests)) && FromRequests(t.admitted, Front(requests))
    requires !expiring ==> t.window.expireAt == None
    ensures var u := Next(expiring, limit, t, Last(requests));
      && Tracks(u, requests) && FromRequests(u.admitted, requests)
      && (!expiring ==> u.window.expireAt == None)
      && u.reply == ReplyFrom(t.admitted, Last(requests).now, limit)
  {
    hide Recent, Unexpired, FromRequests, InOrder, Script, ZAdd, ReplyFrom;
    var r := Last(requests);
    var e := Entry(r.now, r.member);
    LatestRequest(requests);
    hide WellTimed;
    TrimmedIsLog(t, Front(requests), r.now);
    RecentAddIsAppend(t.admitted, requests);
    AppendFromRequests(t.admitted, requests);
    ScriptTracks(expiring, limit, t.window, t.admitted, e);
    assert Last(t.admitted + [e]) == e;
  }

  lemma {:induction false} ServeTracks(expiring: bool, limit: int, requests: seq<Request>)
    requires WellTimed(requests)
    ensures Tracks(Serve(expiring, limit, requests), requests)
    ensures FromRequests(Serve(expiring, limit, requests).admitted, requests)
    ensures Serve(expiring, limit, requests).admitted == Log(limit, requests)
    ensures !expiring ==> Serve(expiring, limit, requests).window.expireAt == None
  {
    if requests != [] {
      ServeTracks(expiring, limit, Front(requests));
      NextTracks(expiring, limit, Serve(expiring, limit, Front(requests)), requests);
    }
  }

  /**
    After every request the stored set is exactly the full admission log restricted
    to the window that ends at that request, and the limiter replied and admitted
    like one that never forgets.
   */
  lemma WindowIsLog(expiring: bool, limit: int, requests: seq<Request>)
    requires WellTimed(requests) && requests != []
    ensures var t := Serve(expiring, limit, requests);
      && t.admitted == Log(limit, requests)
      && t.window.entries == Recent(Log(limit, requests), Last(requests).now - WINDOW_MS)
      && t.reply == ReplyFrom(Log(limit, Front(requests)), Last(requests).now, limit)
  {
    ServeTracks(expiring, limit, requests);
    ServeTracks(expiring, limit, Front(requests));
    NextTracks(expiring, limit, Serve(expiring, limit, Front(requests)), requests);
  }

  lemma LogInOrder(limit: int, requests: seq<Request>)
    requires WellTimed(requests)
    ensures InOrder(Log(limit, requests))
  {
    ServeTracks(true, limit, requests);
  }

  // ------------------------------------------------------------- many callers

  /** What Redis holds after the calls; a tier fixes its callers' limit. */
  function StoredBy(limits: string -> int, calls: seq<Call>): Store {
    if calls == [] then map[]
    else Stored(StoredBy(limits, Front(calls)), limits(Last(calls).tier), Last(calls))
  }

  /** The caller's own requests that reached Redis since its last reset that did. */
  function Own(calls: seq<Call>, tier: string, user: string): seq<Request> {
    if calls == [] then []
    else
      var call := Last(calls);
      var before := Own(Front(calls), tier, user);
      if call.tier != tier || call.user != user || !call.reachable then before
      else if call.Cleared? then []
      else before + [Request(call.now, call.member)]
  }

  predicate TiersPlain(calls: seq<Call>) {
    forall k | 0 <= k < |calls| :: ':' !in calls[k].tier
  }

  /** What a call does to the window under a key. */
  lemma StoredWindow(store: Store, limit: int, call: Call, key: string)
    ensures WindowIn(Stored(store, limit, call), key)
         == if key != Key(call.tier, call.user) || !call.reachable then WindowIn(store, key)
            else if call.Cleared? then NO_WINDOW
            else Script(true, WindowIn(store, key), call.now, limit, call.member).0
  {
    hide Script, Key;
  }

  lemma ServeOneMore(limit: int, before: seq<Request>, r: Request)
    ensures var (w, reply) := Script(true, Serve(true, limit, before).window, r.now, limit, r.member);
      Serve(true, limit, before + [r]).window == w && Serve(true, limit, before + [r]).reply == reply
  {
    hide Script;
    assert Front(before + [r]) == before && Last(before + [r]) == r;
  }

  /**
    However the calls of any callers interleave, whichever of them Redis does not answer
    and whoever is reset, the caller's window is what its own requests alone have left.
   */
  lemma {:induction false} CallersRunAlone(limits: string -> int, calls: seq<Call>, tier: string, user: string)
    requires TiersPlain(calls) && ':' !in tier
    ensures WindowIn(StoredBy(limits, calls), Key(tier, user))
         == Serve(true, limits(tier), Own(calls, tier, user)).window
  {
    if calls != [] {
      var call := Last(calls);
      hide Script, Key, Serve, Stored, WindowIn;
      CallersRunAlone(limits, Front(calls), tier, user);
      CallersAreIndependent(tier, user, call.tier, call.user);
      StoredWindow(StoredBy(limits, Front(calls)), limits(call.tier), call, Key(tier, user));
      if call.Checked? {
        ServeOneMore(limits(tier), Own(Front(calls), tier, user), Request(call.now, call.member));
      } else {
        ServeNothing(limits(tier));
      }
    }
  }

  lemma ServeNothing(limit: int)
    ensures Serve(true, limit, []).window == NO_WINDOW
  {
  }

  /** And each answer Redis gives is the one the caller would have had alone. */
  lemma DecisionsAreOwn(limits: string -> int, calls: seq<Call>)
    requires TiersPlain(calls) && calls != [] && Last(calls).Checked? && Last(calls).reachable
    ensures var call := Last(calls);
      var own := Own(calls, call.tier, call.user);
      var w := WindowIn(StoredBy(limits, Front(calls)), Key(call.tier, call.user));
      && own != [] && Last(own) == Request(call.now, call.member)
      && Script(true, w, call.now, limits(call.tier), call.member).1 == Serve(true, limits(call.tier), own).reply
  {
    var call := Last(calls);
    var before := Own(Front(calls), call.tier, call.user);
    var r := Request(call.now, call.member);
    assert Own(calls, call.tier, call.user) == before + [r];
    hide Script, Key, Serve, StoredBy, WindowIn, Own;
    CallersRunAlone(limits, Front(calls), call.tier, call.user);
    ServeOneMore(limits(call.tier), before, r);
  }

  /** The clock does not go back, and one caller's requests have distinct members. */
  predicate CallsWellTimed(calls: seq<Call>) {
    forall j, k | 0 <= j < k < |calls| && calls[j].Checked? && calls[k].Checked? ::
      && calls[j].now <= calls[k].now
      && (calls[j].tier == calls[k].tier && calls[j].user == calls[k].user ==> calls[j].member != calls[k].member)
  }

  predicate IsCall(r: Request, tier: string, user: string, calls: seq<Call>) {
    exists j :: 0 <= j < |calls| && calls[j].Checked? && calls[j].tier == tier && calls[j].user == user
                && r == Request(calls[j].now, calls[j].member)
  }

  lemma {:induction false} OwnAreCalls(calls: seq<Call>, tier: string, user: string)
    ensures forall k | 0 <= k < |Own(calls, tier, user)| :: IsCall(Own(calls, tier, user)[k], tier, user, calls)
  {
    if calls != [] {
      OwnAreCalls(Front(calls), tier, user);
      var before, own := Own(Front(calls), tier, user), Own(calls, tier, user);
      forall k | 0 <= k < |own| ensures IsCall(own[k], tier, user, calls) {
        if k < |before| {
          assert IsCall(before[k], tier, user, Front(calls));
          var j :| 0 <= j < |calls| - 1 && Front(calls)[j].Checked? && Front(calls)[j].tier == tier
                   && Front(calls)[j].user == user && before[k] == Request(Front(calls)[j].now, Front(calls)[j].member);
          assert calls[j] == Front(calls)[j];
        } else {
          assert calls[|calls| - 1] == Last(calls);
        }
      }
    }
  }

  lemma WellTimedGrows(before: seq<Request>, r: Request)
    requires WellTimed(before)
    requires forall k | 0 <= k < |before| :: before[k].now <= r.now && before[k].member != r.member
    ensures WellTimed(before + [r])
  {
  }

  /** The caller's requests come before its latest one and have other members. */
  lemma OwnAreEarlier(calls: seq<Call>, k: nat)
    requires CallsWellTimed(calls) && calls != [] && Last(calls).Checked?
    requires k < |Own(Front(calls), Last(calls).tier, Last(calls).user)|
    ensures var r := Own(Front(calls), Last(calls).tier, Last(calls).user)[k];
      r.now <= Last(calls).now && r.member != Last(calls).member
  {
    var call := Last(calls);
    OwnAreCalls(Front(calls), call.tier, call.user);
    var r := Own(Front(calls), call.tier, call.user)[k];
    hide Own;
    assert IsCall(r, call.tier, call.user, Front(calls));
    var j :| 0 <= j < |calls| - 1 && Front(calls)[j].Checked? && Front(calls)[j].tier == call.tier
             && Front(calls)[j].user == call.user && r == Request(Front(calls)[j].now, Front(calls)[j].member);
    assert calls[j] == Front(calls)[j] && call == calls[|calls| - 1];
  }

  lemma EarlierWellTimed(calls: seq<Call>)
    requires CallsWellTimed(calls) && calls != []
    ensures CallsWellTimed(Front(calls))
  {
    assert forall k | 0 <= k < |calls| - 1 :: Front(calls)[k] == calls[k];
  }

  /** So the theorems about one caller's requests hold of each caller among many. */
  lemma {:induction false} OwnWellTimed(calls: seq<Call>, tier: string, user: string)
    requires CallsWellTimed(calls)
    ensures WellTimed(Own(calls, tier, user))
  {
    hide WellTimed, CallsWellTimed;
    if calls == [] {
      NoRequests();
    } else {
      var before, call := Own(Front(calls), tier, user), Last(calls);
      EarlierWellTimed(calls);
      OwnWellTimed(Front(calls), tier, user);
      if call.Cleared? {
        NoRequests();
      } else if call.tier == tier && call.user == user {
        forall k | 0 <= k < |before| ensures before[k].now <= call.now && before[k].member != call.member {
          OwnAreEarlier(calls, k);
        }
        WellTimedGrows(before, Request(call.now, call.member));
      }
    }
  }

  lemma NoRequests()
    ensures WellTimed([])
  {
  }

  // ---------------------------------------------------------------- the quota

  /** The admissions with from <= score < to. */
  function During(admitted: seq<Entry>, from: int, to: int): seq<Entry> {
    if admitted == [] then []
    else
      var e := Last(admitted);
      if from <= e.score < to then During(Front(admitted), from, to) + [e]
      else During(Front(admitted), from, to)
  }

  lemma {:induction false} DuringWithinRecent(admitted: seq<Entry>, from: int, to: int, cutoff: int)
    requires cutoff < from
    ensures |During(admitted, from, to)| <= |Recent(admitted, cutoff)|
  {
    if admitted != [] {
      DuringWithinRecent(Front(admitted), from, to, cutoff);
    }
  }

  lemma {:induction false} LogQuota(limit: int, requests: seq<Request>, from: int)
    ensures |During(Log(limit, requests), from, from + WINDOW_MS)| <= Max(0, limit)
  {
    hide Recent;
    if requests != [] {
      var before := Log(limit, Front(requests));
      var e := Entry(Last(requests).now, Last(requests).member);
      LogQuota(limit, Front(requests), from);
      assert Front(before + [e]) == before;
      if from <= e.score < from + WINDOW_MS {
        DuringWithinRecent(before, from, from + WINDOW_MS, e.score - WINDOW_MS);
      }
    }
  }

  /** No half-open window of WINDOW_MS, wherever it starts, holds more than `limit` admissions. */
  lemma QuotaHolds(limit: int, requests: seq<Request>, from: int)
    requires WellTimed(requests)
    ensures |During(Serve(true, limit, requests).admitted, from, from + WINDOW_MS)| <= Max(0, limit)
  {
    ServeTracks(true, limit, requests);
    LogQuota(limit, requests, from);
  }

  /** Expiring idle keys changes no decision and no reported count. */
  lemma ExpiryIsInvisible(limit: int, requests: seq<Request>)
    requires WellTimed(requests)
    ensures Serve(true, limit, requests).admitted == Serve(false, limit, requests).admitted
    ensures Serve(true, limit, requests).reply == Serve(false, limit, requests).reply
  {
    if requests != [] {
      WindowIsLog(true, limit, requests);
      WindowIsLog(false, limit, requests);
    }
  }

  // ------------------------------------------------------------------- retries

  /** With the limit fixed, the window never holds more than the limit. */
  lemma {:induction false} CountWithinLimit(limit: nat, requests: seq<Request>, cutoff: int)
    requires WellTimed(requests) && (requests != [] ==> cutoff >= Last(requests).now - WINDOW_MS)
    ensures |Recent(Log(limit, requests), cutoff)| <= limit
  {
    hide Recent, WellTimed;
    if requests == [] {
      RecentNone([], cutoff);
    } else {
      LatestRequest(requests);
      var before := Log(limit, Front(requests));
      var e := Entry(Last(requests).now, Last(requests).member);
      CountWithinLimit(limit, Front(requests), e.score - WINDOW_MS);
      RecentAppend(before, e, e.score - WINDOW_MS);
      RecentRecent(Log(limit, requests), e.score - WINDOW_MS, cutoff);
    }
  }

  /** Dropping below the oldest recent score loses nothing; passing it loses at least one. */
  lemma OldestLeaves(admitted: seq<Entry>, a: int, b: int)
    requires InOrder(admitted) && a <= b && Recent(admitted, a) != []
    ensures b < Recent(admitted, a)[0].score ==> Recent(admitted, b) == Recent(admitted, a)
    ensures b >= Recent(admitted, a)[0].score ==> |Recent(admitted, b)| < |Recent(admitted, a)|
  {
    hide Recent;
    var recent := Recent(admitted, a);
    RecentRecent(admitted, a, b);
    RecentInOrder(admitted, a);
    if b < recent[0].score {
      RecentAll(recent, b);
    } else {
      RecentNone([recent[0]], b);
      assert recent == [recent[0]] + recent[1..];
      RecentSplit([recent[0]], recent[1..], b);
    }
  }

  lemma {:induction false} RecentInOrder(admitted: seq<Entry>, cutoff: int)
    requires InOrder(admitted)
    ensures InOrder(Recent(admitted, cutoff))
  {
    if admitted != [] {
      RecentInOrder(Front(admitted), cutoff);
      forall e | e in Recent(Front(admitted), cutoff) ensures e.score <= Last(admitted).score {
        RecentMembers(Front(admitted), cutoff, e);
      }
    }
  }

  lemma {:induction false} RecentSplit(xs: seq<Entry>, ys: seq<Entry>, cutoff: int)
    ensures Recent(xs + ys, cutoff) == Recent(xs, cutoff) + Recent(ys, cutoff)
  {
    if ys == [] {
      assert xs + ys == xs;
    } else {
      assert Front(xs + ys) == xs + Front(ys);
      RecentSplit(xs, Front(ys), cutoff);
    }
  }

  /**
    After a rejection, and with nothing admitted since, a request is admitted
    exactly from the instant the oldest counted request leaves the window.
   */
  lemma NextAdmission(limit: nat, requests: seq<Request>, since: seq<Request>, next: Request)
    requires limit >= 1 && requests != [] && WellTimed(requests + since + [next])
    requires !Serve(true, limit, requests).reply.allowed
    requires Serve(true, limit, requests + since).admitted == Serve(true, limit, requests).admitted
    ensures Serve(true, limit, requests + since + [next]).reply.allowed
       <==> next.now >= Serve(true, limit, requests).reply.oldest + WINDOW_MS
  {
    var all := requests + since + [next];
    assert Front(all) == requests + since && Last(all) == next;
    assert all[|requests| - 1] == Last(requests);
    PrefixWellTimed(all, requests);
    PrefixWellTimed(all, requests + since);
    WindowIsLog(true, limit, requests);
    WindowIsLog(true, limit, requests + since);
    WindowIsLog(true, limit, all);
    RejectedThen(limit, requests, next.now);
  }

  lemma RejectionKeepsLog(limit: int, requests: seq<Request>)
    requires requests != [] && !ReplyFrom(Log(limit, Front(requests)), Last(requests).now, limit).allowed
    ensures Log(limit, requests) == Log(limit, Front(requests))
  {
  }

  /** The reply `now` after a rejection, if the log has not changed. */
  lemma RejectedThen(limit: nat, requests: seq<Request>, now: nat)
    requires limit >= 1 && requests != [] && WellTimed(requests) && Last(requests).now <= now
    requires !ReplyFrom(Log(limit, Front(requests)), Last(requests).now, limit).allowed
    ensures ReplyFrom(Log(limit, requests), now, limit).allowed
       <==> now >= ReplyFrom(Log(limit, Front(requests)), Last(requests).now, limit).oldest + WINDOW_MS
  {
    hide Log, Recent, WellTimed, InOrder;
    var log := Log(limit, requests);
    RejectionKeepsLog(limit, requests);
    CountWithinLimit(limit, requests, Last(requests).now - WINDOW_MS);
    LogInOrder(limit, requests);
    OldestLeaves(log, Last(requests).now - WINDOW_MS, now - WINDOW_MS);
  }

  lemma PrefixWellTimed(all: seq<Request>, prefix: seq<Request>)
    requires WellTimed(all) && prefix <= all
    ensures WellTimed(prefix)
  {
    assert forall k | 0 <= k < |prefix| :: prefix[k] == all[k];
  }

  /** Until then every request is rejected, whatever comes. */
  lemma {:induction false} RejectedUntilOldestLeaves(limit: nat, requests: seq<Request>, since: seq<Request>)
    requires limit >= 1 && requests != [] && WellTimed(requests + since)
    requires !Serve(true, limit, requests).reply.allowed
    requires forall k | 0 <= k < |since| :: since[k].now < Serve(true, limit, requests).reply.oldest + WINDOW_MS
    ensures Serve(true, limit, requests + since).admitted == Serve(true, limit, requests).admitted
    ensures !Serve(true, limit, requests + since).reply.allowed
  {
    if since == [] {
      assert requests + since == requests;
    } else {
      var all := requests + since;
      assert Front(all) == requests + Front(since);
      assert all == requests + Front(since) + [Last(since)];
      PrefixWellTimed(all, requests + Front(since));
      RejectedUntilOldestLeaves(limit, requests, Front(since));
      NextAdmission(limit, requests, Front(since), Last(since));
    }
  }

  /** The oldest counted admission is still inside the window, and not in the future. */
  lemma OldestIsRecent(limit: nat, requests: seq<Request>)
    requires limit >= 1 && requests != [] && WellTimed(requests)
    requires !Serve(true, limit, requests).reply.allowed
    ensures Last(requests).now - WINDOW_MS < Serve(true, limit, requests).reply.oldest
  {
    hide Log, Recent, Serve, WellTimed;
    var now := Last(requests).now;
    WindowIsLog(true, limit, requests);
    var log := Log(limit, Front(requests));
    var recent := Recent(log, now - WINDOW_MS);
    RecentMembers(log, now - WINDOW_MS, recent[0]);
  }

  lemma RetryArithmetic(oldest: int, now: int)
    requires oldest + WINDOW_MS > now
    ensures oldest + WINDOW_MS < now + 1000 * RetryAfter(oldest, now) <= oldest + WINDOW_MS + 1000
  {
  }

  /**
    The advice: waiting Retry-After seconds always reaches the instant the next
    request is admitted, and overshoots it by at most a second.
   */
  lemma RetryAfterIsTight(limit: nat, requests: seq<Request>)
    requires limit >= 1 && requests != [] && WellTimed(requests)
    requires !Serve(true, limit, requests).reply.allowed
    ensures var now := Last(requests).now;
      var oldest := Serve(true, limit, requests).reply.oldest;
      oldest + WINDOW_MS < now + 1000 * RetryAfter(oldest, now) <= oldest + WINDOW_MS + 1000
  {
    OldestIsRecent(limit, requests);
    RetryArithmetic(Serve(true, limit, requests).reply.oldest, Last(requests).now);
  }

  // ------------------------------------------------------- what callers are told

  /** When Redis let the caller through since its last reset. */
  function Admissions(limits: string -> int, calls: seq<Call>, tier: string, user: string): seq<nat> {
    if calls == [] then []
    else
      var call := Last(calls);
      var before := Admissions(limits, Front(calls), tier, user);
      if call.tier != tier || call.user != user || !call.reachable then before
      else if call.Cleared? then []
      else if Decided(StoredBy(limits, Front(calls)), limits(tier), call).allowed then before + [call.now]
      else before
  }

  /** How many of the times lie in from <= t < to. */
  function Between(times: seq<nat>, from: int, to: int): nat {
    if times == [] then 0
    else Between(Front(times), from, to) + if from <= Last(times) < to then 1 else 0
  }

  function Times(log: seq<Entry>): (times: seq<nat>)
    ensures |times| == |log| && forall k | 0 <= k < |log| :: times[k] == log[k].score
  {
    seq(|log|, k requires 0 <= k < |log| => log[k].score)
  }

  lemma TimesMore(log: seq<Entry>)
    requires log != []
    ensures Times(log) != [] && Front(Times(log)) == Times(Front(log)) && Last(Times(log)) == Last(log).score
  {
  }

  lemma {:induction false} RecentCount(log: seq<Entry>, now: int)
    requires forall k | 0 <= k < |log| :: log[k].score <= now
    ensures |Recent(log, now - WINDOW_MS)| == Between(Times(log), now - WINDOW_MS + 1, now + 1)
  {
    hide Times;
    if log != [] {
      RecentCount(Front(log), now);
      TimesMore(log);
    }
  }

  lemma {:induction false} DuringCount(log: seq<Entry>, from: int, to: int)
    ensures |During(log, from, to)| == Between(Times(log), from, to)
  {
    hide Times;
    if log != [] {
      DuringCount(Front(log), from, to);
      TimesMore(log);
    }
  }

  /** The reply to the caller's latest call is that of a limiter that never forgets its admissions. */
  lemma ReplyIsOwn(limits: string -> int, calls: seq<Call>)
    requires TiersPlain(calls) && CallsWellTimed(calls) && calls != [] && Last(calls).Checked? && Last(calls).reachable
    ensures var call := Last(calls);
      var w := WindowIn(StoredBy(limits, Front(calls)), Key(call.tier, call.user));
      var log := Log(limits(call.tier), Own(Front(calls), call.tier, call.user));
      && Own(calls, call.tier, call.user) == Own(Front(calls), call.tier, call.user) + [Request(call.now, call.member)]
      && Script(true, w, call.now, limits(call.tier), call.member).1 == ReplyFrom(log, call.now, limits(call.tier))
  {
    var call := Last(calls);
    var before := Own(Front(calls), call.tier, call.user);
    var r := Request(call.now, call.member);
    assert Own(calls, call.tier, call.user) == before + [r];
    OwnWellTimed(calls, call.tier, call.user);
    hide Script, Own, StoredBy, WindowIn, WellTimed, CallsWellTimed, ReplyFrom, Log, Key, Serve;
    DecisionsAreOwn(limits, calls);
    WindowIsLog(true, limits(call.tier), before + [r]);
    assert Front(before + [r]) == before && Last(before + [r]) == r;
  }

  lemma LogMore(limit: int, before: seq<Request>, r: Request)
    ensures Log(limit, before + [r])
         == Log(limit, before) + if ReplyFrom(Log(limit, before), r.now, limit).allowed then [Entry(r.now, r.member)]
                                 else []
  {
    hide ReplyFrom;
    assert Front(before + [r]) == before && Last(before + [r]) == r;
  }

  /** The times at which the caller was told it may go on are those of the admission log. */
  lemma {:induction false} AdmissionsAreLog(limits: string -> int, calls: seq<Call>, tier: string, user: string)
    requires TiersPlain(calls) && CallsWellTimed(calls)
    ensures Admissions(limits, calls, tier, user) == Times(Log(limits(tier), Own(calls, tier, user)))
  {
    if calls != [] {
      var call := Last(calls);
      EarlierWellTimed(calls);
      hide Script, CallsWellTimed, ReplyFrom, Log, Key, StoredBy, WindowIn;
      AdmissionsAreLog(limits, Front(calls), tier, user);
      if call.tier == tier && call.user == user && call.reachable {
        if call.Cleared? {
          NoLog(limits(tier));
        } else {
          ReplyIsOwn(limits, calls);
          LogMore(limits(tier), Own(Front(calls), tier, user), Request(call.now, call.member));
        }
      }
    } else {
      NoLog(limits(tier));
    }
  }

  lemma NoLog(limit: int)
    ensures Log(limit, []) == []
  {
  }

  /** `t` is the oldest of the times that still count at `now`. */
  predicate OldestCounting(times: seq<nat>, now: int, t: nat) {
    && t in times && now - WINDOW_MS < t <= now
    && forall u | u in times && now - WINDOW_MS < u :: t <= u
  }

  lemma OldestIsFirst(log: seq<Entry>, now: int)
    requires InOrder(log) && (forall k | 0 <= k < |log| :: log[k].score <= now)
    requires Recent(log, now - WINDOW_MS) != []
    ensures OldestCounting(Times(log), now, Recent(log, now - WINDOW_MS)[0].score)
  {
    var cutoff := now - WINDOW_MS;
    var recent := Recent(log, cutoff);
    RecentMembers(log, cutoff, recent[0]);
    RecentInOrder(log, cutoff);
    var k :| 0 <= k < |log| && log[k] == recent[0];
    assert Times(log)[k] == recent[0].score;
    forall u | u in Times(log) && cutoff < u ensures recent[0].score <= u {
      var j :| 0 <= j < |log| && Times(log)[j] == u;
      RecentMembers(log, cutoff, log[j]);
    }
  }

  lemma LogBefore(limits: string -> int, calls: seq<Call>)
    requires CallsWellTimed(calls) && calls != [] && Last(calls).Checked?
    ensures var call := Last(calls);
      var log := Log(limits(call.tier), Own(Front(calls), call.tier, call.user));
      InOrder(log) && forall k | 0 <= k < |log| :: log[k].score <= call.now
  {
    var call := Last(calls);
    var own := Own(Front(calls), call.tier, call.user);
    EarlierWellTimed(calls);
    OwnWellTimed(Front(calls), call.tier, call.user);
    forall k | 0 <= k < |own| ensures own[k].now <= call.now {
      OwnAreEarlier(calls, k);
    }
    hide Log, Own, WellTimed, CallsWellTimed;
    ServeTracks(true, limits(call.tier), own);
    var log := Log(limits(call.tier), own);
    forall k | 0 <= k < |log| ensures log[k].score <= call.now {
      assert IsRequest(log[k], own);
    }
  }

  /** Waiting as told from `now` on reaches the instant at which `t` leaves the window, at most a second late. */
  predicate Reaches(t: nat, now: int, seconds: int) {
    t + WINDOW_MS < now + 1000 * seconds <= t + WINDOW_MS + 1000
  }

  /**
    What a caller must be told at `now` if `times` are its earlier admissions: it may go on
    if and only if fewer than `limit` of them lie in the last WINDOW_MS milliseconds, and
    how many more may follow; otherwise, to wait until the oldest of them leaves the window.
   */
  ghost predicate Tells(d: Decision, times: seq<nat>, now: int, limit: int) {
    var n := Between(times, now - WINDOW_MS + 1, now + 1);
    && d.limit == limit && (d.allowed <==> n < limit)
    && (d.allowed ==> d.remaining == limit - n - 1 && d.retryAfterSeconds == 0)
    && (!d.allowed ==> d.remaining == 0)
    && (!d.allowed && limit >= 1 ==>
          exists t: nat :: OldestCounting(times, now, t) && Reaches(t, now, d.retryAfterSeconds))
  }

  lemma DecideTells(log: seq<Entry>, now: nat, limit: int)
    requires InOrder(log) && forall k | 0 <= k < |log| :: log[k].score <= now
    ensures Tells(Decide(ReplyFrom(log, now, limit), limit, now), Times(log), now, limit)
  {
    hide Recent, InOrder, Between, Times, RetryAfter, OldestCounting, Reaches;
    RecentCount(log, now);
    var recent := Recent(log, now - WINDOW_MS);
    if |recent| >= limit && limit >= 1 {
      OldestIsFirst(log, now);
      RecentMembers(log, now - WINDOW_MS, recent[0]);
      AdviceReaches(recent[0].score, now);
    }
  }

  lemma AdviceReaches(oldest: nat, now: int)
    requires oldest + WINDOW_MS > now
    ensures Reaches(oldest, now, RetryAfter(oldest, now))
  {
    RetryArithmetic(oldest, now);
  }

  /** Check tells every caller just that, however its calls interleave with those of others. */
  lemma DecidesExactly(limits: string -> int, calls: seq<Call>)
    requires TiersPlain(calls) && CallsWellTimed(calls) && calls != [] && Last(calls).Checked? && Last(calls).reachable
    ensures var call := Last(calls);
      Tells(Decided(StoredBy(limits, Front(calls)), limits(call.tier), call),
            Admissions(limits, Front(calls), call.tier, call.user), call.now, limits(call.tier))
  {
    var call := Last(calls);
    LogBefore(limits, calls);
    EarlierWellTimed(calls);
    ReplyIsOwn(limits, calls);
    hide Script, Log, Own, CallsWellTimed, ReplyFrom, StoredBy, WindowIn, Key, InOrder, Admissions, Times, Decide,
      Tells;
    AdmissionsAreLog(limits, Front(calls), call.tier, call.user);
    DecideTells(Log(limits(call.tier), Own(Front(calls), call.tier, call.user)), call.now, limits(call.tier));
  }

  /** However its calls interleave with others, no caller is let through more than `limit` times in any window. */
  lemma NoCallerExceedsLimit(limits: string -> int, calls: seq<Call>, tier: string, user: string, from: int)
    requires TiersPlain(calls) && CallsWellTimed(calls)
    ensures Between(Admissions(limits, calls, tier, user), from, from + WINDOW_MS) <= Max(0, limits(tier))
  {
    AdmissionsAreLog(limits, calls, tier, user);
    LogQuota(limits(tier), Own(calls, tier, user), from);
    DuringCount(Log(limits(tier), Own(calls, tier, user)), from, from + WINDOW_MS);
  }
}

/** The cached token source, called by one goroutine at a time. Times are integers on one clock; the
    issuer behind it is abstract: each attempt yields a token with an expiry, or fails. */
module Token {
  import opened Text

  datatype Token = Token(accessToken: string, expiry: int)

  /** One call: the time it captured first, and what the issuer answers if it is asked. */
  datatype Call = Call(now: int, reply: Option<Token>)

  datatype Issue = Issue(now: int, token: Token)

  predicate Fresh(margin: int, stored: Option<Token>, now: int) {
    stored.Some? && stored.value.expiry - margin > now
  }

  /** What is stored after a run of calls, and which calls issued what. */
  datatype History = History(stored: Option<Token>, issues: seq<Issue>)

  function Run(margin: int, calls: seq<Call>): History {
    if calls == [] then History(None, [])
    else
      var before, call := Run(margin, calls[..|calls| - 1]), calls[|calls| - 1];
      if Fresh(margin, before.stored, call.now) || call.reply.None? then before
      else History(call.reply, before.issues + [Issue(call.now, call.reply.value)])
  }

  function Result(margin: int, stored: Option<Token>, call: Call): Option<Token> {
    if Fresh(margin, stored, call.now) then stored
    else if call.reply.None? then stored
    else call.reply
  }

  class CachedTokenSource {
    const marginTime: int
    var token: Option<Token>
    ghost var calls: seq<Call>

    ghost predicate Valid()
      reads this
    {
      token == Run(marginTime, calls).stored
    }

    constructor (marginTime: int)
      ensures Valid() && this.marginTime == marginTime && calls == [] && token == None
    {
      this.marginTime := marginTime;
      token := None;
      calls := [];
    }

    /** None is an error. The issuer is asked only when the stored token is missing or too close to its expiry. */
    method GetToken(now: int, reply: Option<Token>) returns (r: Option<Token>)
      requires Valid()
      modifies this
      ensures Valid() && calls == old(calls) + [Call(now, reply)]
      ensures r == Result(marginTime, old(token), Call(now, reply))
      ensures old(token).Some? && old(token).value.expiry - marginTime > now ==> r == token == old(token)
      ensures !(old(token).Some? && old(token).value.expiry - marginTime > now) ==>
                r == token == if reply.Some? then reply else old(token)
      ensures r.Some? ==> r == token
      ensures r.None? <==> token.None?
      ensures token != old(token) ==> token == reply && !Fresh(marginTime, old(token), now)
    {
      calls := calls + [Call(now, reply)];
      assert calls[..|calls| - 1] == old(calls);
      var cached := token;
      if cached.Some? && cached.value.expiry - marginTime > now {
        return cached;
      }
      if reply.None? {
        if token.None? {
          return None;
        }
        return token;
      }
      token := reply;
      return reply;
    }
  }

  /** Nothing is stored exactly as long as every attempt has failed, so a call errs exactly when its own attempt and all
      earlier ones failed; a stale token is always preferred to an error. */
  lemma {:induction false} ErrsIffNeverIssued(margin: int, calls: seq<Call>)
    ensures Run(margin, calls).stored.None? <==> forall i :: 0 <= i < |calls| ==> calls[i].reply.None?
    ensures Run(margin, calls).stored.None? <==> Run(margin, calls).issues == []
  {
    if calls != [] {
      var n := |calls| - 1;
      ErrsIffNeverIssued(margin, calls[..n]);
      assert forall i :: 0 <= i < n ==> calls[..n][i] == calls[i];
    }
  }

  /** A call is handed a token past its margin only if its own attempt to issue one failed. */
  lemma {:induction false} StaleOnlyIfIssueFails(margin: int, calls: seq<Call>)
    requires calls != [] && calls[|calls| - 1].reply.Some?
    ensures var call, stored := calls[|calls| - 1], Run(margin, calls).stored;
            stored.Some? && (stored == call.reply || stored.value.expiry - margin > call.now)
    ensures Result(margin, Run(margin, calls[..|calls| - 1]).stored, calls[|calls| - 1]) == Run(margin, calls).stored
  {
  }

  /** Issued tokens live at least `life` from the time the call captured; calls come in time order. */
  ghost predicate WellTimed(calls: seq<Call>, life: int) {
    && (forall i, j :: 0 <= i < j < |calls| ==> calls[i].now <= calls[j].now)
    && (forall i :: 0 <= i < |calls| && calls[i].reply.Some? ==> calls[i].reply.value.expiry >= calls[i].now + life)
  }

  /** Consecutive issues are at least life - margin apart, and the last one issued what is stored. */
  ghost predicate Spaced(history: History, margin: int, life: int, now: int) {
    var issues := history.issues;
    && (forall k :: 0 < k < |issues| ==> issues[k].now - issues[k - 1].now >= life - margin)
    && (issues != [] ==>
          && history.stored == Some(issues[|issues| - 1].token)
          && issues[|issues| - 1].token.expiry >= issues[|issues| - 1].now + life
          && issues[|issues| - 1].now <= now)
    && (issues == [] ==> history.stored.None?)
  }

  lemma {:induction false} IssuesSpaced(margin: int, life: int, calls: seq<Call>)
    requires WellTimed(calls, life)
    ensures Spaced(Run(margin, calls), margin, life, if calls == [] then 0 else calls[|calls| - 1].now)
  {
    if calls != [] {
      var before := calls[..|calls| - 1];
      IssuesSpaced(margin, life, before);
    }
  }

  /** Rate bound: any n consecutive issues of any run span at least (n - 1) * (life - margin), however the issuer fails
      in between. */
  lemma RateBound(margin: int, life: int, calls: seq<Call>, i: nat, j: nat)
    requires WellTimed(calls, life)
    requires i <= j < |Run(margin, calls).issues|
    ensures var issues := Run(margin, calls).issues; (j - i) * (life - margin) <= issues[j].now - issues[i].now
  {
    IssuesSpaced(margin, life, calls);
    SpanOfIssues(Run(margin, calls).issues, life - margin, i, j);
  }

  lemma {:induction false} SpanOfIssues(issues: seq<Issue>, gap: int, i: nat, j: nat)
    requires i <= j < |issues|
    requires forall k :: 0 < k < |issues| ==> issues[k].now - issues[k - 1].now >= gap
    ensures (j - i) * gap <= issues[j].now - issues[i].now
  {
    if i < j {
      SpanOfIssues(issues, gap, i, j - 1);
      assert (j - i) * gap == (j - 1 - i) * gap + gap;
    }
  }
}

/** The same source called by any number of goroutines at once. Only the first read of the stored token is
    under the mutex; reads and writes of it are taken to be atomic. */
module TokenRace {
  import opened Text
  import opened Token

  datatype How = CacheHit(now: int) | OwnIssue | Stale

  /** Where a call stands. Each caller makes one call. */
  datatype Progress =
    | Started(now: int)
    | Read(now: int, cached: Option<Token>)
    | Issuing
    | Issued(token: Token)
    | IssueFailed
    | Falling
    | Returned(result: Option<Token>, how: How)
    | Erred

  /** The stored token, every call begun so far, and every token the issuer ever handed out. */
  datatype State = State(stored: Option<Token>, calls: map<int, Progress>, issued: set<Token>)

  const INIT := State(None, map[], {})

  datatype Action =
    | Start(now: int)
    | ReadCache
    | Decide
    | Succeed(token: Token)
    | Fail
    | CheckStored
    | ReturnStored
    | Store

  datatype Step = Step(caller: int, action: Action)

  function Move(s: State, c: int, p: Progress): State {
    s.(calls := s.calls[c := p])
  }

  /** One atomic step of one caller; None when the caller is not at that point. */
  function Do(margin: int, s: State, step: Step): Option<State> {
    var c := step.caller;
    if step.action.Start? then
      if c in s.calls then None else Some(Move(s, c, Started(step.action.now)))
    else if c !in s.calls then None
    else match (step.action, s.calls[c])
      case (ReadCache, Started(now)) => Some(Move(s, c, Read(now, s.stored)))
      case (Decide, Read(now, cached)) =>
        Some(Move(s, c, if Fresh(margin, cached, now) then Returned(cached, CacheHit(now)) else Issuing))
      case (Succeed(t), Issuing) => Some(Move(s, c, Issued(t)).(issued := s.issued + {t}))
      case (Fail, Issuing) => Some(Move(s, c, IssueFailed))
      case (CheckStored, IssueFailed) => Some(Move(s, c, if s.stored.None? then Erred else Falling))
      case (ReturnStored, Falling) => Some(Move(s, c, Returned(s.stored, Stale)))
      case (Store, Issued(t)) => Some(Move(s, c, Returned(Some(t), OwnIssue)).(stored := Some(t)))
      case _ => None
  }

  function ExecFrom(margin: int, s: State, steps: seq<Step>): Option<State> {
    if steps == [] then Some(s)
    else
      match ExecFrom(margin, s, steps[..|steps| - 1])
      case Some(s') => Do(margin, s', steps[|steps| - 1])
      case None => None
  }

  /** An interleaving from the start; Some when every step was possible. */
  function Exec(margin: int, steps: seq<Step>): Option<State> {
    ExecFrom(margin, INIT, steps)
  }

  ghost predicate Safe(margin: int, s: State) {
    && (s.stored.Some? ==> s.stored.value in s.issued)
    && forall c :: c in s.calls ==> SafeCall(margin, s, s.calls[c])
  }

  ghost predicate SafeCall(margin: int, s: State, p: Progress) {
    match p
    case Read(now, Some(t)) => t in s.issued && s.stored.Some?
    case Issued(t) => t in s.issued
    case Falling => s.stored.Some?
    case Returned(t, how) =>
      t.Some? && t.value in s.issued && s.stored.Some? && (how.CacheHit? ==> t.value.expiry - margin > how.now)
    case _ => true
  }

  /** Nothing stored is ever lost, in any interleaving. */
  lemma {:induction false} StoredStays(margin: int, steps: seq<Step>, n: nat)
    requires Exec(margin, steps).Some? && n <= |steps|
    ensures Exec(margin, steps[..n]).Some?
    ensures Exec(margin, steps[..n]).value.stored.Some? ==> Exec(margin, steps).value.stored.Some?
    ensures Exec(margin, steps[..n]).value.issued <= Exec(margin, steps).value.issued
    decreases |steps|
  {
    if n == |steps| {
      assert steps[..n] == steps;
    } else {
      var before := steps[..|steps| - 1];
      assert before[..n] == steps[..n];
      StoredStays(margin, before, n);
    }
  }

  /** In every interleaving: what is stored was issued, no caller is handed nil without an error but always an issued
      token, even when it re-reads the stored one, and a cache hit was fresh for its caller. */
  lemma {:induction false} AlwaysSafe(margin: int, steps: seq<Step>)
    requires Exec(margin, steps).Some?
    ensures Safe(margin, Exec(margin, steps).value)
  {
    if steps != [] {
      AlwaysSafe(margin, steps[..|steps| - 1]);
    }
  }

  /** An error means the call's own issue failed, and that up to its check no call had stored anything. */
  lemma {:induction false} ErrorMeansNothingStored(margin: int, steps: seq<Step>, c: int) returns (n: nat)
    requires Exec(margin, steps).Some?
    requires c in Exec(margin, steps).value.calls && Exec(margin, steps).value.calls[c].Erred?
    ensures n < |steps| && steps[n] == Step(c, CheckStored)
    ensures Exec(margin, steps[..n]).Some? && Exec(margin, steps[..n]).value.calls.Keys >= {c}
    ensures Exec(margin, steps[..n]).value.calls[c].IssueFailed?
    ensures forall k :: 0 <= k <= n ==> Exec(margin, steps[..k]).Some? && Exec(margin, steps[..k]).value.stored.None?
  {
    var before := steps[..|steps| - 1];
    var s := Exec(margin, before).value;
    if c in s.calls && s.calls[c].Erred? {
      n := ErrorMeansNothingStored(margin, before, c);
      assert before[..n] == steps[..n];
      assert forall k :: 0 <= k <= n ==> before[..k] == steps[..k];
    } else {
      n := |steps| - 1;
      forall k | 0 <= k <= n
        ensures Exec(margin, steps[..k]).Some? && Exec(margin, steps[..k]).value.stored.None?
      {
        assert before[..k] == steps[..k];
        StoredStays(margin, before, k);
      }
    }
  }

  /** How every call stands where it does: a result came from the cache without asking the issuer, from the call's own
      issue, or after its own issue failed. */
  lemma {:induction false} ReturnsExplained(margin: int, steps: seq<Step>, c: int)
    requires Exec(margin, steps).Some?
    ensures Explained(steps, c, Exec(margin, steps).value)
  {
    if steps != [] {
      var before := steps[..|steps| - 1];
      assert forall step :: step in steps <==> step in before || step == steps[|steps| - 1];
      ReturnsExplained(margin, before, c);
    }
  }

  ghost predicate Explained(steps: seq<Step>, c: int, s: State) {
    if c !in s.calls then NeverAsked(steps, c)
    else match s.calls[c]
      case Issued(t) => Step(c, Succeed(t)) in steps
      case IssueFailed => Step(c, Fail) in steps
      case Falling => Step(c, Fail) in steps
      case Erred => Step(c, Fail) in steps
      case Returned(t, OwnIssue) => t.Some? && Step(c, Succeed(t.value)) in steps && Step(c, Store) in steps
      case Returned(t, Stale) => Step(c, Fail) in steps
      case _ => NeverAsked(steps, c)
  }

  ghost predicate NeverAsked(steps: seq<Step>, c: int) {
    forall step :: step in steps && step.caller == c ==> !step.action.Fail? && !step.action.Succeed?
  }

  /** The steps of a call that nobody interrupts. */
  function Alone(margin: int, s: State, c: int, call: Call): seq<Step> {
    [Step(c, Start(call.now)), Step(c, ReadCache), Step(c, Decide)]
    + if Fresh(margin, s.stored, call.now) then [] else AloneIssuing(s, c, call.reply)
  }

  function AloneIssuing(s: State, c: int, reply: Option<Token>): seq<Step> {
    if reply.Some? then [Step(c, Succeed(reply.value)), Step(c, Store)]
    else [Step(c, Fail), Step(c, CheckStored)] + if s.stored.Some? then [Step(c, ReturnStored)] else []
  }

  lemma {:induction false} ExecConcat(margin: int, s: State, a: seq<Step>, b: seq<Step>)
    requires ExecFrom(margin, s, a).Some?
    ensures ExecFrom(margin, s, a + b) == ExecFrom(margin, ExecFrom(margin, s, a).value, b)
  {
    if b == [] {
      assert a + b == a;
    } else {
      ExecConcat(margin, s, a, b[..|b| - 1]);
      assert (a + b)[..|a + b| - 1] == a + b[..|b| - 1];
    }
  }

  lemma ExecOne(margin: int, s: State, step: Step)
    ensures ExecFrom(margin, s, [step]) == Do(margin, s, step)
  {
    assert [step][..0] == [];
  }

  lemma ExecTwo(margin: int, s: State, a: Step, b: Step)
    ensures ExecFrom(margin, s, [a, b])
         == match Do(margin, s, a) case Some(s') => Do(margin, s', b) case None => None
  {
    assert [a, b][..1] == [a];
    ExecOne(margin, s, a);
  }

  lemma AloneDecides(margin: int, s: State, c: int, now: int)
    requires c !in s.calls
    ensures ExecFrom(margin, s, [Step(c, Start(now)), Step(c, ReadCache), Step(c, Decide)])
         == Some(Move(s, c, if Fresh(margin, s.stored, now) then Returned(s.stored, CacheHit(now)) else Issuing))
  {
    var steps := [Step(c, Start(now)), Step(c, ReadCache), Step(c, Decide)];
    assert steps[..2] == [Step(c, Start(now)), Step(c, ReadCache)];
    ExecTwo(margin, s, Step(c, Start(now)), Step(c, ReadCache));
    var p := if Fresh(margin, s.stored, now) then Returned(s.stored, CacheHit(now)) else Issuing;
    assert s.calls[c := Started(now)][c := Read(now, s.stored)][c := p] == s.calls[c := p];
  }

  /** The call is over: it returned r, or erred if that is None, and left this token stored. */
  ghost predicate Ends(s: State, end: Option<State>, c: int, r: Option<Token>, stored: Option<Token>) {
    && end.Some? && end.value.calls.Keys == s.calls.Keys + {c} && end.value.stored == stored
    && if r.None? then end.value.calls[c].Erred? else end.value.calls[c].Returned? && end.value.calls[c].result == r
  }

  lemma AloneIssues(margin: int, s: State, c: int, reply: Option<Token>)
    requires c in s.calls && s.calls[c] == Issuing
    ensures var r := if reply.Some? then reply else s.stored;
            Ends(s, ExecFrom(margin, s, AloneIssuing(s, c, reply)), c, r, r)
  {
    var steps := AloneIssuing(s, c, reply);
    if reply.Some? {
      ExecTwo(margin, s, Step(c, Succeed(reply.value)), Step(c, Store));
    } else {
      ExecTwo(margin, s, Step(c, Fail), Step(c, CheckStored));
      if s.stored.Some? {
        assert steps[..|steps| - 1] == [Step(c, Fail), Step(c, CheckStored)];
        assert ExecFrom(margin, s, steps) == Do(margin, Move(Move(s, c, IssueFailed), c, Falling), Step(c, ReturnStored));
      } else {
        assert steps == [Step(c, Fail), Step(c, CheckStored)];
      }
    }
  }

  /** Uninterrupted, a call behaves exactly as the sequential source does. */
  lemma AloneIsSequential(margin: int, s: State, c: int, call: Call)
    requires c !in s.calls
    ensures var r := Result(margin, s.stored, call);
            Ends(s, ExecFrom(margin, s, Alone(margin, s, c, call)), c, r, r)
  {
    var decide := [Step(c, Start(call.now)), Step(c, ReadCache), Step(c, Decide)];
    AloneDecides(margin, s, c, call.now);
    if Fresh(margin, s.stored, call.now) {
      assert Alone(margin, s, c, call) == decide;
    } else {
      var s' := Move(s, c, Issuing);
      assert AloneIssuing(s, c, call.reply) == AloneIssuing(s', c, call.reply);
      ExecConcat(margin, s, decide, AloneIssuing(s', c, call.reply));
      AloneIssues(margin, s', c, call.reply);
    }
  }

  /** Callers 0, 1, ... one after the other, each uninterrupted. */
  function OneByOne(margin: int, calls: seq<Call>): seq<Step> {
    if calls == [] then []
    else
      var before := OneByOne(margin, calls[..|calls| - 1]);
      match Exec(margin, before)
      case Some(s) => before + Alone(margin, s, |calls| - 1, calls[|calls| - 1])
      case None => before
  }

  /** Calls that do not overlap leave what the sequential source leaves, for any number of calls. */
  lemma {:induction false} OneByOneIsSequential(margin: int, calls: seq<Call>)
    ensures var end := Exec(margin, OneByOne(margin, calls));
            && end.Some? && end.value.stored == Run(margin, calls).stored
            && forall c :: c in end.value.calls ==> 0 <= c < |calls|
  {
    if calls != [] {
      var before := calls[..|calls| - 1];
      OneByOneIsSequential(margin, before);
      var s := Exec(margin, OneByOne(margin, before)).value;
      AloneIsSequential(margin, s, |calls| - 1, calls[|calls| - 1]);
      ExecConcat(margin, INIT, OneByOne(margin, before), Alone(margin, s, |calls| - 1, calls[|calls| - 1]));
    }
  }
}

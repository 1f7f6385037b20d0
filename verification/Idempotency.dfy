/**
 At-most-once mutations: `with_idempotent_mutation` inside `with_write_tx`.
 What an operation does is a parameter: a partial function of the request, the
 wall clock, the lease tick if the operation takes one, and the state. A failed
 call is a rolled-back transaction.
 */
module Idempotency {
  import opened Text

  datatype Call<Req> = Call(actor: string, operation: string, key: string, request: Req, wall: int, ticks: bool)

  datatype Record<Resp> = Record(requestHash: string, response: Resp)

  type Key = (string, string, string)

  /** The business tables, `mutation_idempotency` and `lease_clock`. */
  datatype Store<S, Resp> = Store(state: S, records: map<Key, Record<Resp>>, clock: int)

  datatype Reply<Resp> = Done(response: Resp) | Replayed(response: Resp) | Conflict | Failed

  type Op<!Req, !S, !Resp> = (string, Req, int, Option<int>, S) -> Option<(S, Resp)>

  function KeyOf<Req>(call: Call<Req>): Key { (call.actor, call.operation, call.key) }

  const MAX_IDEMPOTENCY_KEY_LEN := 256

  /** `validate_idempotency_key`. */
  predicate ValidKey(key: string) { Trim(key) != "" && Utf8Length(key) <= MAX_IDEMPOTENCY_KEY_LEN }

  function Max(a: int, b: int): int { if a < b then b else a }

  /** The lease clock after the transaction; not every operation advances it. */
  function TickFor<Req>(clock: int, call: Call<Req>): int {
    if call.ticks then Max(clock, Max(call.wall, 0)) else clock
  }

  /** The tick an operation is handed: one that does not advance the clock gets none. */
  function Handed<Req>(clock: int, call: Call<Req>): Option<int> {
    if call.ticks then Some(TickFor(clock, call)) else None
  }

  /** One write transaction. The clock has been advanced before the record is looked up. */
  function Execute<Req, S, Resp>(op: Op<Req, S, Resp>, hash: Req -> string, st: Store<S, Resp>, call: Call<Req>)
    : (Store<S, Resp>, Reply<Resp>)
  {
    var tick := TickFor(st.clock, call);
    if call.wall < 0 || !ValidKey(call.key) then (st, Failed)
    else if KeyOf(call) in st.records then
      if st.records[KeyOf(call)].requestHash != hash(call.request) then (st, Conflict)
      else (st.(clock := tick), Replayed(st.records[KeyOf(call)].response))
    else
      match op(call.operation, call.request, call.wall, Handed(st.clock, call), st.state)
      case None => (st, Failed)
      case Some((state, response)) =>
        (Store(state, st.records[KeyOf(call) := Record(hash(call.request), response)], tick), Done(response))
  }

  class Covey<S, Req, Resp> {
    var state: S
    var records: map<Key, Record<Resp>>
    var clock: int

    function Rows(): Store<S, Resp>
      reads this
    {
      Store(state, records, clock)
    }

    /** What the closure of an operation captured: the advanced tick, or nothing. */
    function Given(call: Call<Req>): Option<int>
      reads this`clock
    {
      if call.ticks then Some(clock) else None
    }

    constructor (initial: S)
      ensures Rows() == Store(initial, map[], 0)
    {
      state, records, clock := initial, map[], 0;
    }

    /** `with_write_tx` around an operation: commit on success, undo everything on error. */
    method WithWriteTx(op: Op<Req, S, Resp>, hash: Req -> string, call: Call<Req>) returns (reply: Reply<Resp>)
      modifies this
      ensures (Rows(), reply) == Execute(op, hash, old(Rows()), call)
    {
      var start := clock;
      if call.wall < 0 { return Failed; }
      if call.ticks && clock < call.wall { clock := call.wall; }
      reply := WithIdempotentMutation(op, hash, call);
      if reply.Conflict? || reply.Failed? { clock := start; }
    }

    method WithIdempotentMutation(op: Op<Req, S, Resp>, hash: Req -> string, call: Call<Req>)
      returns (reply: Reply<Resp>)
      modifies this`state, this`records
      ensures var key := (call.actor, call.operation, call.key);
              reply == if !ValidKey(call.key) then Failed
                       else if key in old(records) then
                         if old(records)[key].requestHash != hash(call.request) then Conflict
                         else Replayed(old(records)[key].response)
                       else match op(call.operation, call.request, call.wall, Given(call), old(state))
                            case None => Failed
                            case Some((_, response)) => Done(response)
      ensures !reply.Done? ==> state == old(state) && records == old(records)
      ensures reply.Done? ==>
                && op(call.operation, call.request, call.wall, Given(call), old(state)) == Some((state, reply.response))
                && records == old(records)[(call.actor, call.operation, call.key)
                                           := Record(hash(call.request), reply.response)]
    {
      if !ValidKey(call.key) { return Failed; }
      var requestHash := hash(call.request);
      if KeyOf(call) in records {
        var existing := records[KeyOf(call)];
        if existing.requestHash != requestHash { return Conflict; }
        return Replayed(existing.response);
      }
      var value := op(call.operation, call.request, call.wall, Given(call), state);
      if value.None? { return Failed; }
      state := value.value.0;
      records := records[KeyOf(call) := Record(requestHash, value.value.1)];
      return Done(value.value.1);
    }
  }

  // -------------------------------------------------------------------- runs

  function Run<Req, S, Resp>(op: Op<Req, S, Resp>, hash: Req -> string, st: Store<S, Resp>, calls: seq<Call<Req>>)
    : Store<S, Resp>
  {
    if calls == [] then st
    else Execute(op, hash, Run(op, hash, st, calls[..|calls| - 1]), calls[|calls| - 1]).0
  }

  /** The reply to the i-th call of a run. */
  function ReplyTo<Req, S, Resp>(op: Op<Req, S, Resp>, hash: Req -> string, st: Store<S, Resp>,
                                 calls: seq<Call<Req>>, i: nat): Reply<Resp>
    requires i < |calls|
  {
    Execute(op, hash, Run(op, hash, st, calls[..i]), calls[i]).1
  }

  /** A call that took effect, the lease tick it saw and what it answered. */
  datatype Effect<Req, Resp> = Effect(call: Call<Req>, tick: Option<int>, response: Resp)

  /** The calls of a run that took effect, in order. */
  function Effects<Req, S, Resp>(op: Op<Req, S, Resp>, hash: Req -> string, st: Store<S, Resp>,
                                 calls: seq<Call<Req>>): seq<Effect<Req, Resp>>
  {
    if calls == [] then []
    else
      var init, call := calls[..|calls| - 1], calls[|calls| - 1];
      var at := Run(op, hash, st, init);
      var reply := Execute(op, hash, at, call).1;
      Effects(op, hash, st, init)
      + if reply.Done? then [Effect(call, Handed(at.clock, call), reply.response)] else []
  }

  /** The reference: apply the operations alone, without records, keys or retries. */
  function Apply<Req, S, Resp>(op: Op<Req, S, Resp>, s: S, effects: seq<Effect<Req, Resp>>): Option<S> {
    if effects == [] then Some(s)
    else
      var init, e := effects[..|effects| - 1], effects[|effects| - 1];
      match Apply(op, s, init)
      case None => None
      case Some(s') =>
        match op(e.call.operation, e.call.request, e.call.wall, e.tick, s')
        case Some((s'', r)) => Some(s'')
        case None => None
  }

  /** Two calls of one actor, of one operation and under one key. */
  predicate SameAttempt<Req>(a: Call<Req>, b: Call<Req>) {
    a.actor == b.actor && a.operation == b.operation && a.key == b.key
  }

  /** No two effects are of one attempt: they differ in actor, operation or key. */
  predicate OncePerKey<Req, Resp>(effects: seq<Effect<Req, Resp>>) {
    forall i, j :: 0 <= i < j < |effects| ==>
      var a, b := effects[i].call, effects[j].call; a.actor != b.actor || a.operation != b.operation || a.key != b.key
  }

  /** The records are exactly the keys that took effect, with the request and answer of that effect. */
  ghost predicate RecordsMatch<Req, Resp>(hash: Req -> string, records: map<Key, Record<Resp>>,
                                          effects: seq<Effect<Req, Resp>>) {
    && (forall i :: 0 <= i < |effects| ==>
          KeyOf(effects[i].call) in records
          && records[KeyOf(effects[i].call)] == Record(hash(effects[i].call.request), effects[i].response))
    && (forall k :: k in records ==> exists i :: 0 <= i < |effects| && KeyOf(effects[i].call) == k)
  }

  /** One more call keeps the effects, the state and the records in step. */
  ghost predicate InStep<Req, S, Resp>(op: Op<Req, S, Resp>, hash: Req -> string, s: S, st: Store<S, Resp>,
                                       effects: seq<Effect<Req, Resp>>) {
    && Apply(op, s, effects) == Some(st.state)
    && OncePerKey(effects) && RecordsMatch(hash, st.records, effects)
  }

  lemma EffectKeepsStep<Req, S, Resp>(op: Op<Req, S, Resp>, hash: Req -> string, s: S, at: Store<S, Resp>,
                                      before: seq<Effect<Req, Resp>>, call: Call<Req>)
    requires InStep(op, hash, s, at, before) && Execute(op, hash, at, call).1.Done?
    ensures var (st, reply) := Execute(op, hash, at, call);
            InStep(op, hash, s, st, before + [Effect(call, Handed(at.clock, call), reply.response)])
  {
    var (st, reply) := Execute(op, hash, at, call);
    var e := Effect(call, Handed(at.clock, call), reply.response);
    assert (before + [e])[..|before|] == before;
    EffectKeepsOnce(hash, at.records, before, e);
    EffectKeepsRecords(hash, at.records, before, e);
  }

  lemma EffectKeepsOnce<Req, Resp>(hash: Req -> string, records: map<Key, Record<Resp>>, before: seq<Effect<Req, Resp>>,
                                   e: Effect<Req, Resp>)
    requires OncePerKey(before) && RecordsMatch(hash, records, before) && KeyOf(e.call) !in records
    ensures OncePerKey(before + [e])
  {
    forall i | 0 <= i < |before| ensures KeyOf(before[i].call) != KeyOf(e.call) {
      assert KeyOf(before[i].call) in records;
    }
  }

  lemma EffectKeepsRecords<Req, Resp>(hash: Req -> string, records: map<Key, Record<Resp>>,
                                      before: seq<Effect<Req, Resp>>, e: Effect<Req, Resp>)
    requires RecordsMatch(hash, records, before) && KeyOf(e.call) !in records
    ensures RecordsMatch(hash, records[KeyOf(e.call) := Record(hash(e.call.request), e.response)], before + [e])
  {
    var after := records[KeyOf(e.call) := Record(hash(e.call.request), e.response)];
    var effects := before + [e];
    forall k | k in after ensures exists i :: 0 <= i < |effects| && KeyOf(effects[i].call) == k {
      if k == KeyOf(e.call) {
        assert KeyOf(effects[|before|].call) == k;
      } else {
        var i :| 0 <= i < |before| && KeyOf(before[i].call) == k;
        assert KeyOf(effects[i].call) == k;
      }
    }
  }

  /**
   A run with retries, conflicts and failures is the run of its effects alone:
   same business state, each key at most once, and a record for each.
   */
  lemma {:induction false} RunIsItsEffects<Req, S, Resp>(op: Op<Req, S, Resp>, hash: Req -> string, s: S,
                                                         calls: seq<Call<Req>>)
    ensures var st0 := Store(s, map[], 0);
            InStep(op, hash, s, Run(op, hash, st0, calls), Effects(op, hash, st0, calls))
  {
    if calls != [] {
      var init, call := calls[..|calls| - 1], calls[|calls| - 1];
      var st0 := Store(s, map[], 0);
      RunIsItsEffects(op, hash, s, init);
      var at, before := Run(op, hash, st0, init), Effects(op, hash, st0, init);
      if Execute(op, hash, at, call).1.Done? {
        EffectKeepsStep(op, hash, s, at, before, call);
      } else {
        assert Effects(op, hash, st0, calls) == before;
      }
    }
  }

  ghost predicate CollisionFree<Req(!new)>(hash: Req -> string) {
    forall a, b :: hash(a) == hash(b) ==> a == b
  }

  lemma {:induction false} RecordsGrow<Req, S, Resp>(op: Op<Req, S, Resp>, hash: Req -> string, st: Store<S, Resp>,
                                                     calls: seq<Call<Req>>, i: nat, k: Key)
    requires i <= |calls| && k in Run(op, hash, st, calls[..i]).records
    ensures k in Run(op, hash, st, calls).records
    ensures Run(op, hash, st, calls).records[k] == Run(op, hash, st, calls[..i]).records[k]
    decreases |calls|
  {
    if i < |calls| {
      var init := calls[..|calls| - 1];
      assert init[..i] == calls[..i];
      RecordsGrow(op, hash, st, init, i, k);
    } else {
      assert calls[..i] == calls;
    }
  }

  /**
   After a call took effect, every later call of that actor, of that operation and under that
   key is answered from the record if it asks the same thing and is a conflict if it does not.
   */
  lemma LaterCallsReplay<Req(!new), S, Resp>(op: Op<Req, S, Resp>, hash: Req -> string, st: Store<S, Resp>,
                                             calls: seq<Call<Req>>, i: nat, j: nat)
    requires CollisionFree(hash) && i < j < |calls|
    requires ReplyTo(op, hash, st, calls, i).Done? && SameAttempt(calls[i], calls[j]) && calls[j].wall >= 0
    ensures ReplyTo(op, hash, st, calls, j) ==
            if calls[j].request == calls[i].request then Replayed(ReplyTo(op, hash, st, calls, i).response) else Conflict
  {
    var k := KeyOf(calls[i]);
    assert calls[..j][..i + 1] == calls[..i + 1] && calls[..i + 1][..i] == calls[..i];
    assert Run(op, hash, st, calls[..i + 1]) == Execute(op, hash, Run(op, hash, st, calls[..i]), calls[i]).0;
    RecordsGrow(op, hash, st, calls[..j], i + 1, k);
  }

  /** The i-th call took effect and is of the same attempt. */
  ghost predicate TookEffect<Req, S, Resp>(op: Op<Req, S, Resp>, hash: Req -> string, st: Store<S, Resp>,
                                           calls: seq<Call<Req>>, i: int, call: Call<Req>) {
    0 <= i < |calls| && ReplyTo(op, hash, st, calls, i).Done? && SameAttempt(calls[i], call)
  }

  /** Starting without records, there is one for exactly the attempts that took effect. */
  lemma {:induction false} RecordedIff<Req, S, Resp>(op: Op<Req, S, Resp>, hash: Req -> string, st: Store<S, Resp>,
                                                     calls: seq<Call<Req>>, call: Call<Req>)
    requires st.records == map[]
    ensures (call.actor, call.operation, call.key) in Run(op, hash, st, calls).records <==>
            exists i :: TookEffect(op, hash, st, calls, i, call)
  {
    if calls != [] {
      var n := |calls| - 1;
      RecordedIff(op, hash, st, calls[..n], call);
      forall i | 0 <= i < n
        ensures TookEffect(op, hash, st, calls[..n], i, call) <==> TookEffect(op, hash, st, calls, i, call)
      {
        assert calls[..n][..i] == calls[..i];
      }
      if i :| TookEffect(op, hash, st, calls[..n], i, call) {
        assert TookEffect(op, hash, st, calls, i, call);
      }
      if Execute(op, hash, Run(op, hash, st, calls[..n]), calls[n]).1.Done? && SameAttempt(calls[n], call) {
        assert TookEffect(op, hash, st, calls, n, call);
      }
    }
  }

  /**
   A call is answered from a record or as a conflict if and only if an earlier call of the same
   actor, operation and key took effect. Without one it gets what the operation answers.
   */
  lemma AnsweredFromRecordIff<Req, S, Resp>(op: Op<Req, S, Resp>, hash: Req -> string, st: Store<S, Resp>,
                                            calls: seq<Call<Req>>, j: nat)
    requires st.records == map[] && j < |calls|
    requires calls[j].wall >= 0 && Trim(calls[j].key) != "" && Utf8Length(calls[j].key) <= 256
    ensures var call, reply, at := calls[j], ReplyTo(op, hash, st, calls, j), Run(op, hash, st, calls[..j]);
            && (reply.Replayed? || reply.Conflict? <==>
                exists i :: 0 <= i < j && TookEffect(op, hash, st, calls, i, call))
            && (reply.Done? || reply.Failed? ==>
                reply == match op(call.operation, call.request, call.wall, Handed(at.clock, call), at.state)
                         case None => Failed
                         case Some((_, response)) => Done(response))
  {
    var call := calls[j];
    RecordedIff(op, hash, st, calls[..j], call);
    forall i | 0 <= i < j
      ensures TookEffect(op, hash, st, calls[..j], i, call) <==> TookEffect(op, hash, st, calls, i, call)
    {
      assert calls[..j][..i] == calls[..i];
    }
    if i :| TookEffect(op, hash, st, calls[..j], i, call) {
      assert TookEffect(op, hash, st, calls, i, call);
    }
  }

  /** A call that fails or conflicts leaves every table as it was, the clock included. */
  lemma FailureChangesNothing<Req, S, Resp>(op: Op<Req, S, Resp>, hash: Req -> string, st: Store<S, Resp>, call: Call<Req>)
    requires var reply := Execute(op, hash, st, call).1; reply.Failed? || reply.Conflict?
    ensures Execute(op, hash, st, call).0 == st
  {
  }

  // --------------------------------------------------------------- the clock

  /** A replay leaves the store as it was exactly when its wall clock does not pass the lease clock. */
  lemma ReplayIsNoOpIff<Req, S, Resp>(op: Op<Req, S, Resp>, hash: Req -> string, st: Store<S, Resp>, call: Call<Req>)
    requires Execute(op, hash, st, call).1.Replayed?
    ensures Execute(op, hash, st, call).0 == st.(clock := TickFor(st.clock, call))
    ensures Execute(op, hash, st, call).0 == st <==> !call.ticks || call.wall <= st.clock
  {
  }

  /** Only the calls that took effect. */
  function Effective<Req, S, Resp>(op: Op<Req, S, Resp>, hash: Req -> string, st: Store<S, Resp>,
                                   calls: seq<Call<Req>>): seq<Call<Req>>
  {
    if calls == [] then []
    else
      var init, call := calls[..|calls| - 1], calls[|calls| - 1];
      Effective(op, hash, st, init)
      + if Execute(op, hash, Run(op, hash, st, init), call).1.Done? then [call] else []
  }

  /** The lease clock as the effects alone would have moved it. */
  function EffectClock<Req, S, Resp>(op: Op<Req, S, Resp>, hash: Req -> string, st: Store<S, Resp>,
                                     calls: seq<Call<Req>>): int
  {
    if calls == [] then st.clock
    else
      var init, call := calls[..|calls| - 1], calls[|calls| - 1];
      var clock := EffectClock(op, hash, st, init);
      if Execute(op, hash, Run(op, hash, st, init), call).1.Done? then TickFor(clock, call) else clock
  }

  /** The i-th call was answered from a record and advanced the clock to at least its own wall time. */
  ghost predicate TickingReplay<Req, S, Resp>(op: Op<Req, S, Resp>, hash: Req -> string, st: Store<S, Resp>,
                                              calls: seq<Call<Req>>, i: int) {
    0 <= i < |calls| && calls[i].ticks && ReplyTo(op, hash, st, calls, i).Replayed?
  }

  lemma PrefixReplies<Req, S, Resp>(op: Op<Req, S, Resp>, hash: Req -> string, st: Store<S, Resp>,
                                    calls: seq<Call<Req>>, n: int, i: int)
    requires 0 <= i < n <= |calls|
    ensures calls[..n][..i] == calls[..i]
    ensures TickingReplay(op, hash, st, calls[..n], i) <==> TickingReplay(op, hash, st, calls, i)
  {
    assert calls[..n][..i] == calls[..i];
  }

  /** The clock of a run is that of its effects or the wall time of a ticking replay, whichever is latest. */
  lemma {:induction false} RunClock<Req, S, Resp>(op: Op<Req, S, Resp>, hash: Req -> string, st: Store<S, Resp>,
                                                  calls: seq<Call<Req>>)
    ensures EffectClock(op, hash, st, calls) <= Run(op, hash, st, calls).clock
    ensures forall i :: TickingReplay(op, hash, st, calls, i) ==> calls[i].wall <= Run(op, hash, st, calls).clock
    ensures Run(op, hash, st, calls).clock == EffectClock(op, hash, st, calls)
            || exists i :: TickingReplay(op, hash, st, calls, i) && calls[i].wall == Run(op, hash, st, calls).clock
  {
    if calls != [] {
      var n := |calls| - 1;
      var init, call := calls[..n], calls[n];
      RunClock(op, hash, st, init);
      var at := Run(op, hash, st, init);
      forall i | TickingReplay(op, hash, st, calls, i) ensures calls[i].wall <= Run(op, hash, st, calls).clock {
        if i < n { PrefixReplies(op, hash, st, calls, n, i); }
      }
      if Run(op, hash, st, calls).clock == at.clock {
        if at.clock != EffectClock(op, hash, st, init) {
          var i :| TickingReplay(op, hash, st, init, i) && init[i].wall == at.clock;
          PrefixReplies(op, hash, st, calls, n, i);
          assert TickingReplay(op, hash, st, calls, i);
        }
      } else if ReplyTo(op, hash, st, calls, n).Replayed? {
        assert TickingReplay(op, hash, st, calls, n);
      }
    }
  }

  /** The wall time of some earlier ticking replay passes both the call's own and the clock of the earlier effects. */
  ghost predicate Outrun<Req, S, Resp>(op: Op<Req, S, Resp>, hash: Req -> string, st: Store<S, Resp>,
                                       calls: seq<Call<Req>>, i: int)
    requires 0 <= i < |calls|
  {
    calls[i].ticks &&
    exists j :: j < i && TickingReplay(op, hash, st, calls, j)
                && calls[j].wall > TickFor(EffectClock(op, hash, st, calls[..i]), calls[i])
  }

  /** Exactly then is the tick the call is handed another than it would be without the replays. */
  lemma OutrunIff<Req, S, Resp>(op: Op<Req, S, Resp>, hash: Req -> string, st: Store<S, Resp>,
                                calls: seq<Call<Req>>, i: int)
    requires 0 <= i < |calls|
    ensures Outrun(op, hash, st, calls, i) <==>
            Handed(Run(op, hash, st, calls[..i]).clock, calls[i]) != Handed(EffectClock(op, hash, st, calls[..i]), calls[i])
  {
    RunClock(op, hash, st, calls[..i]);
    forall j | 0 <= j < i
      ensures TickingReplay(op, hash, st, calls[..i], j) <==> TickingReplay(op, hash, st, calls, j)
    {
      PrefixReplies(op, hash, st, calls, i, j);
    }
    if calls[i].ticks {
      var clock := Run(op, hash, st, calls[..i]).clock;
      if clock > TickFor(EffectClock(op, hash, st, calls[..i]), calls[i]) {
        var j :| TickingReplay(op, hash, st, calls[..i], j) && calls[..i][j].wall == clock;
        assert TickingReplay(op, hash, st, calls, j);
      }
    }
  }

  /** No call that took effect was outrun by a retry of another. */
  ghost predicate NoneOutrun<Req, S, Resp>(op: Op<Req, S, Resp>, hash: Req -> string, st: Store<S, Resp>,
                                           calls: seq<Call<Req>>) {
    forall i :: 0 <= i < |calls| && ReplyTo(op, hash, st, calls, i).Done? ==> !Outrun(op, hash, st, calls, i)
  }

  lemma NoneOutrunInit<Req, S, Resp>(op: Op<Req, S, Resp>, hash: Req -> string, st: Store<S, Resp>,
                                     calls: seq<Call<Req>>)
    requires calls != []
    ensures var n := |calls| - 1;
            NoneOutrun(op, hash, st, calls) <==>
            && NoneOutrun(op, hash, st, calls[..n])
            && (ReplyTo(op, hash, st, calls, n).Done? ==> !Outrun(op, hash, st, calls, n))
  {
    var n := |calls| - 1;
    forall i | 0 <= i < n
      ensures Outrun(op, hash, st, calls[..n], i) <==> Outrun(op, hash, st, calls, i)
      ensures ReplyTo(op, hash, st, calls[..n], i) == ReplyTo(op, hash, st, calls, i)
    {
      OutrunPrefix(op, hash, st, calls, n, i);
    }
  }

  lemma OutrunPrefix<Req, S, Resp>(op: Op<Req, S, Resp>, hash: Req -> string, st: Store<S, Resp>,
                                   calls: seq<Call<Req>>, n: int, i: int)
    requires 0 <= i < n <= |calls|
    ensures Outrun(op, hash, st, calls[..n], i) <==> Outrun(op, hash, st, calls, i)
    ensures ReplyTo(op, hash, st, calls[..n], i) == ReplyTo(op, hash, st, calls, i)
  {
    OutrunIff(op, hash, st, calls, i);
    OutrunIff(op, hash, st, calls[..n], i);
    assert calls[..n][..i] == calls[..i];
  }

  /** The run of the first calls has the same business state and records, and the clock of the effects. */
  ghost predicate SameAsFirstCalls<Req, S, Resp>(op: Op<Req, S, Resp>, hash: Req -> string, st: Store<S, Resp>,
                                                 calls: seq<Call<Req>>) {
    Run(op, hash, st, Effective(op, hash, st, calls))
    == Run(op, hash, st, calls).(clock := EffectClock(op, hash, st, calls))
  }

  /**
   Dropping every retry, conflict and failure from a run leaves state and records as they
   are, for every operation, if no effect was outrun.
   */
  lemma {:induction false} RunIsFirstCalls<Req, S, Resp>(op: Op<Req, S, Resp>, hash: Req -> string,
                                                         st: Store<S, Resp>, calls: seq<Call<Req>>)
    requires NoneOutrun(op, hash, st, calls)
    ensures SameAsFirstCalls(op, hash, st, calls)
  {
    if calls != [] {
      var n := |calls| - 1;
      var init, call := calls[..n], calls[n];
      NoneOutrunInit(op, hash, st, calls);
      RunIsFirstCalls(op, hash, st, init);
      var kept := Effective(op, hash, st, init);
      if ReplyTo(op, hash, st, calls, n).Done? {
        OutrunIff(op, hash, st, calls, n);
        RunSnoc(op, hash, st, kept, call);
      } else {
        assert Effective(op, hash, st, calls) == kept;
      }
    }
  }

  /** The whole store is the same, clock included, exactly if no ticking replay is later than every effect. */
  lemma WholeStoreIff<Req, S, Resp>(op: Op<Req, S, Resp>, hash: Req -> string, st: Store<S, Resp>,
                                    calls: seq<Call<Req>>)
    requires NoneOutrun(op, hash, st, calls)
    ensures Run(op, hash, st, Effective(op, hash, st, calls)) == Run(op, hash, st, calls) <==>
            forall i :: TickingReplay(op, hash, st, calls, i) ==> calls[i].wall <= EffectClock(op, hash, st, calls)
  {
    RunIsFirstCalls(op, hash, st, calls);
    RunClock(op, hash, st, calls);
  }

  /** Retries made in wall-clock order outrun nothing, however late they are. */
  lemma OrderedRunIsFirstCalls<Req, S, Resp>(op: Op<Req, S, Resp>, hash: Req -> string, st: Store<S, Resp>,
                                             calls: seq<Call<Req>>)
    requires forall i, j :: 0 <= i < j < |calls| ==> calls[i].wall <= calls[j].wall
    ensures SameAsFirstCalls(op, hash, st, calls)
  {
    RunIsFirstCalls(op, hash, st, calls);
  }

  // ------------------------------------------------ a retry that moves the clock

  /** An operation that keeps the lease ticks it was given, as every lease deadline does. */
  function LogTick<Req>(operation: string, request: Req, wall: int, tick: Option<int>, log: seq<Option<int>>)
    : Option<(seq<Option<int>>, int)>
  {
    Some((log + [tick], 0))
  }

  /** The two runs are in step but for the ticks in the log, which agree as `same` says. */
  ghost predicate LogsAgree(at: Store<seq<Option<int>>, int>, first: Store<seq<Option<int>>, int>, same: bool) {
    |first.state| == |at.state| && first.records == at.records && (first.state == at.state <==> same)
  }

  lemma LogTickStep<Req>(hash: Req -> string, at: Store<seq<Option<int>>, int>, first: Store<seq<Option<int>>, int>,
                         same: bool, call: Call<Req>)
    requires LogsAgree(at, first, same) && Execute(LogTick, hash, at, call).1.Done?
    ensures LogsAgree(Execute(LogTick, hash, at, call).0, Execute(LogTick, hash, first, call).0,
                      same && Handed(first.clock, call) == Handed(at.clock, call))
    ensures Execute(LogTick, hash, first, call).0.clock == TickFor(first.clock, call)
  {
    SnocEqual(first.state, at.state, Handed(first.clock, call), Handed(at.clock, call));
  }

  /** For it the condition is exact: the first calls alone leave the same log if and only if none was outrun. */
  lemma {:induction false} LogTickIff<Req>(hash: Req -> string, st: Store<seq<Option<int>>, int>, calls: seq<Call<Req>>)
    ensures var first := Run(LogTick, hash, st, Effective(LogTick, hash, st, calls));
            && LogsAgree(Run(LogTick, hash, st, calls), first, NoneOutrun(LogTick, hash, st, calls))
            && first.clock == EffectClock(LogTick, hash, st, calls)
  {
    if calls != [] {
      var n := |calls| - 1;
      var init, call := calls[..n], calls[n];
      LogTickIff(hash, st, init);
      NoneOutrunInit(LogTick, hash, st, calls);
      var at, kept := Run(LogTick, hash, st, init), Effective(LogTick, hash, st, init);
      if ReplyTo(LogTick, hash, st, calls, n).Done? {
        OutrunIff(LogTick, hash, st, calls, n);
        RunSnoc(LogTick, hash, st, kept, call);
        LogTickStep(hash, at, Run(LogTick, hash, st, kept), NoneOutrun(LogTick, hash, st, init), call);
      } else {
        assert Effective(LogTick, hash, st, calls) == kept;
      }
    }
  }

  lemma SnocEqual<T>(a: seq<T>, b: seq<T>, x: T, y: T)
    requires |a| == |b|
    ensures a + [x] == b + [y] <==> a == b && x == y
  {
    if a + [x] == b + [y] {
      assert (a + [x])[..|a|] == a && (b + [y])[..|b|] == b && (a + [x])[|a|] == x && (b + [y])[|b|] == y;
    }
  }

  function TextHash(request: string): string { request }

  /** It happens when the wall clock steps back: a retry, then another call with an earlier time. */
  lemma RetryMovesClock(a: Call<string>, b: Call<string>, late: int)
    requires a.ticks && b.ticks && !SameAttempt(a, b) && ValidKey(a.key) && ValidKey(b.key)
    requires 0 <= a.wall && 0 <= b.wall && a.wall < late && b.wall < late
    ensures var st, calls := Store([], map[], 0), [a, a.(wall := late), b];
            && ReplyTo(LogTick, TextHash, st, calls, 1).Replayed? && Outrun(LogTick, TextHash, st, calls, 2)
            && Effective(LogTick, TextHash, st, calls) == [a, b]
            && Run(LogTick, TextHash, st, calls).state == [Some(a.wall), Some(late)]
            && Run(LogTick, TextHash, st, [a, b]).state == [Some(a.wall), Some(Max(a.wall, b.wall))]
  {
    var st, calls := Store([], map[], 0), [a, a.(wall := late), b];
    RunSnoc(LogTick, TextHash, st, [], a);
    RunSnoc(LogTick, TextHash, st, [a], b);
    RunSnoc(LogTick, TextHash, st, [a], a.(wall := late));
    RunSnoc(LogTick, TextHash, st, [a, a.(wall := late)], b);
    assert [] + [a] == [a] && [a] + [b] == [a, b] && [a] + [a.(wall := late)] == calls[..2];
    assert calls[..2] + [b] == calls && calls[..1] == [a] && calls[..2][..1] == [a] && [a][..0] == [];
    assert calls[..2] == [a, a.(wall := late)];
    assert TickingReplay(LogTick, TextHash, st, calls, 1);
    assert Effective(LogTick, TextHash, st, [a]) == [a];
    assert EffectClock(LogTick, TextHash, st, [a]) == a.wall;
    assert Effective(LogTick, TextHash, st, calls[..2]) == [a] && EffectClock(LogTick, TextHash, st, calls[..2]) == a.wall;
  }

  lemma RunSnoc<Req, S, Resp>(op: Op<Req, S, Resp>, hash: Req -> string, st: Store<S, Resp>, calls: seq<Call<Req>>,
                              call: Call<Req>)
    ensures Run(op, hash, st, calls + [call]) == Execute(op, hash, Run(op, hash, st, calls), call).0
  {
    assert (calls + [call])[..|calls|] == calls;
  }
}

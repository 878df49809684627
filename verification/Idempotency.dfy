/** The bounded idempotency memory of the activation journal, as values: what a handled request leaves
    behind, and what any run of requests therefore replays. */
module Idempotency {
  import opened Options

  const IDEMPOTENCY_LIMIT: nat := 50

  datatype StatusCode = Aborted | Unimplemented | Unavailable | Internal | InvalidArgument | FailedPrecondition

  /** The messages of the source, one constructor a format. */
  datatype Message =
    | EmptyKey
    | NoActivationPending
    | LeaseViolated
    | NoConditionalForce
    | AttemptChanged(expectedAttempt: string, currentAttempt: string)
    | StatusChanged(expectedRevision: nat, currentRevision: nat)
    | BlockersChanged
    | ActivationNotTerminal
    | ExecutableChanged
    | UnexpectedIdentity
    | StaleServiceRecorded
    | Unverified
    | Note(note: CheckNote)
    | Detail(text: string)

  /** Details of the check history. */
  datatype CheckNote =
    | AlreadyActive | WaitingForQuiescence | Verified | QueuedRecheck | QueuedForce | Observed | IdentityChanged

  datatype Status = Status(code: StatusCode, message: Message)

  datatype Rejection = Rejection(key: string, code: StatusCode, message: Message)

  /** Only these codes are remembered. */
  predicate Rememberable(code: StatusCode) {
    code in {Aborted, Unimplemented, Unavailable, Internal}
  }

  datatype Outcome = Accepted | Rejected(status: Status)

  datatype Memory = Memory(keys: seq<string>, rejections: seq<Rejection>)

  predicate Distinct(keys: seq<string>) {
    forall i, j :: 0 <= i < j < |keys| ==> keys[i] != keys[j]
  }

  /** Keys are distinct, not empty and at most fifty; each rejection belongs to a remembered key, with a
      code that may be remembered, and no key has two. */
  ghost predicate Sound(m: Memory) {
    && Distinct(m.keys) && "" !in m.keys && |m.keys| <= IDEMPOTENCY_LIMIT
    && (forall i :: 0 <= i < |m.rejections| ==> m.rejections[i].key in m.keys && Rememberable(m.rejections[i].code))
    && OnePerKey(m.rejections)
  }

  predicate OnePerKey(rejections: seq<Rejection>) {
    forall i, j :: 0 <= i < j < |rejections| ==> rejections[i].key != rejections[j].key
  }

  function FindRejection(rejections: seq<Rejection>, key: string): (r: Option<Rejection>)
    ensures r.Some? ==> r.value in rejections && r.value.key == key
    ensures r.None? <==> forall i :: 0 <= i < |rejections| ==> rejections[i].key != key
  {
    if rejections == [] then None
    else if rejections[0].key == key then Some(rejections[0])
    else FindRejection(rejections[1..], key)
  }

  /** The recorded outcome of a remembered key. */
  function Replay(m: Memory, key: string): Outcome {
    var found := FindRejection(m.rejections, key);
    if found.Some? then Rejected(Status(found.value.code, found.value.message)) else Accepted
  }

  function Newest(keys: seq<string>): (r: seq<string>)
    ensures |r| <= IDEMPOTENCY_LIMIT
  {
    if |keys| > IDEMPOTENCY_LIMIT then keys[|keys| - IDEMPOTENCY_LIMIT..] else keys
  }

  function Retained(rejections: seq<Rejection>, keys: seq<string>): (r: seq<Rejection>)
    ensures forall x :: x in r ==> x in rejections && x.key in keys
  {
    if rejections == [] then []
    else (if rejections[0].key in keys then [rejections[0]] else []) + Retained(rejections[1..], keys)
  }

  /** A new key enters behind the others and pushes the oldest out, with its rejection. */
  function Remembered(m: Memory, key: string): Memory {
    var keys := Newest(m.keys + [key]);
    Memory(keys, Retained(m.rejections, keys))
  }

  /** What one request with `key` and outcome `o` does to the memory. */
  function After(m: Memory, key: string, o: Outcome): Memory {
    if key in m.keys then m
    else
      var r := Remembered(m, key);
      if o.Rejected? then r.(rejections := r.rejections + [Rejection(key, o.status.code, o.status.message)]) else r
  }

  /** A request was handled: an empty key is refused, a remembered key replays, and any other key may
      have either outcome. */
  ghost predicate Handled(m: Memory, key: string, o: Outcome, m': Memory) {
    if key == "" then m' == m && o == Rejected(Status(InvalidArgument, EmptyKey))
    else
      && m' == After(m, key, o)
      && (key in m.keys ==> o == Replay(m, key))
      && (o.Rejected? ==> Rememberable(o.status.code))
  }

  lemma {:induction false} RetainedOnePerKey(rejections: seq<Rejection>, keys: seq<string>)
    requires OnePerKey(rejections)
    ensures OnePerKey(Retained(rejections, keys))
  {
    if rejections != [] {
      var head, tail := rejections[0], rejections[1..];
      assert forall i :: 0 <= i < |tail| ==> tail[i] == rejections[i + 1];
      RetainedOnePerKey(tail, keys);
      var rest := Retained(tail, keys);
      forall i | 0 <= i < |rest|
        ensures rest[i].key != head.key
      {
        assert rest[i] in tail;
      }
    }
  }

  lemma {:induction false} RetainedAll(rejections: seq<Rejection>, keys: seq<string>)
    requires forall i :: 0 <= i < |rejections| ==> rejections[i].key in keys
    ensures Retained(rejections, keys) == rejections
  {
    if rejections != [] {
      RetainedAll(rejections[1..], keys);
    }
  }

  lemma {:induction false} RetainedFinds(rejections: seq<Rejection>, keys: seq<string>, key: string)
    requires key in keys
    ensures FindRejection(Retained(rejections, keys), key) == FindRejection(rejections, key)
  {
    if rejections != [] {
      var rest := Retained(rejections[1..], keys);
      RetainedFinds(rejections[1..], keys, key);
      if rejections[0].key in keys {
        var r := Retained(rejections, keys);
        assert r == [rejections[0]] + rest && r[1..] == rest;
      } else {
        assert Retained(rejections, keys) == rest;
      }
    }
  }

  lemma {:induction false} FindAppended(rejections: seq<Rejection>, last: Rejection, key: string)
    ensures FindRejection(rejections + [last], key)
         == if FindRejection(rejections, key).Some? then FindRejection(rejections, key)
            else if last.key == key then Some(last) else None
  {
    if rejections != [] {
      FindAppended(rejections[1..], last, key);
      assert (rejections + [last])[1..] == rejections[1..] + [last];
    }
  }

  lemma NewestKeeps(keys: seq<string>, key: string)
    requires Distinct(keys) && "" !in keys && key != "" && key !in keys
    ensures var r := Newest(keys + [key]);
            Distinct(r) && "" !in r && |r| > 0 && r[|r| - 1] == key && forall k :: k in r ==> k == key || k in keys
  {
    var all := keys + [key];
    assert Distinct(all);
  }

  lemma RememberedSound(m: Memory, key: string)
    requires Sound(m) && key != "" && key !in m.keys
    ensures Sound(Remembered(m, key)) && key in Remembered(m, key).keys
    ensures FindRejection(Remembered(m, key).rejections, key).None?
  {
    NewestKeeps(m.keys, key);
    RetainedOnePerKey(m.rejections, Newest(m.keys + [key]));
    var r := Remembered(m, key);
    assert forall i :: 0 <= i < |r.rejections| ==> r.rejections[i] in r.rejections;
  }

  /** A handled request keeps the memory sound and is remembered with its outcome. */
  lemma HandledRemembers(m: Memory, key: string, o: Outcome, m': Memory)
    requires Sound(m) && Handled(m, key, o, m')
    ensures Sound(m')
    ensures key != "" ==> key in m'.keys && Replay(m', key) == o
  {
    if key != "" && key !in m.keys {
      RememberedSound(m, key);
      var r := Remembered(m, key);
      if o.Rejected? {
        FindAppended(r.rejections, Rejection(key, o.status.code, o.status.message), key);
      }
    }
  }

  /** A handled request changes the outcome of no other key that stays remembered. */
  lemma HandledKeepsOthers(m: Memory, key: string, o: Outcome, m': Memory, other: string)
    requires Handled(m, key, o, m') && other != key && other in m'.keys
    ensures other in m.keys && Replay(m', other) == Replay(m, other)
  {
    if key != "" && key !in m.keys {
      var r := Remembered(m, key);
      assert other in m.keys + [key];
      RetainedFinds(m.rejections, r.keys, other);
      if o.Rejected? {
        FindAppended(r.rejections, Rejection(key, o.status.code, o.status.message), other);
      }
    }
  }

  lemma HandledKeeps(m: Memory, key: string, o: Outcome, m': Memory, k: string)
    requires Sound(m) && Handled(m, key, o, m') && k in m.keys && k in m'.keys
    ensures Replay(m', k) == Replay(m, k)
  {
    if key != k {
      HandledKeepsOthers(m, key, o, m', k);
    }
  }

  /** A run of handled requests: memory `i` handles request `i`. */
  ghost predicate Run(ms: seq<Memory>, keys: seq<string>, os: seq<Outcome>) {
    && |ms| == |keys| + 1 && |os| == |keys|
    && Sound(ms[0])
    && forall i :: 0 <= i < |keys| ==> Handled(ms[i], keys[i], os[i], ms[i + 1])
  }

  lemma {:induction false} RunSound(ms: seq<Memory>, keys: seq<string>, os: seq<Outcome>, n: nat)
    requires Run(ms, keys, os) && n < |ms|
    ensures Sound(ms[n])
  {
    if n > 0 {
      RunSound(ms, keys, os, n - 1);
      HandledRemembers(ms[n - 1], keys[n - 1], os[n - 1], ms[n]);
    }
  }

  /** One step of a run: its own key replays its outcome. */
  lemma OwnStep(ms: seq<Memory>, keys: seq<string>, os: seq<Outcome>, n: nat)
    requires Run(ms, keys, os) && n < |keys| && keys[n] != ""
    ensures Replay(ms[n + 1], keys[n]) == os[n]
  {
    RunSound(ms, keys, os, n);
    HandledRemembers(ms[n], keys[n], os[n], ms[n + 1]);
  }

  /** One step of a run: any other key that stays remembered keeps its outcome. */
  lemma OtherStep(ms: seq<Memory>, keys: seq<string>, os: seq<Outcome>, n: nat, k: string)
    requires Run(ms, keys, os) && n < |keys| && k in ms[n].keys && k in ms[n + 1].keys
    ensures Replay(ms[n + 1], k) == Replay(ms[n], k)
  {
    RunSound(ms, keys, os, n);
    HandledKeeps(ms[n], keys[n], os[n], ms[n + 1], k);
  }

  /** As long as a key stays remembered, the outcome of its handling is the one it replays. */
  lemma {:induction false} OutcomeStays(ms: seq<Memory>, keys: seq<string>, os: seq<Outcome>, i: nat, j: nat)
    requires Run(ms, keys, os) && i < j < |ms| && keys[i] != ""
    requires forall t :: i < t <= j ==> keys[i] in ms[t].keys
    ensures Replay(ms[j], keys[i]) == os[i]
    decreases j
  {
    if j == i + 1 {
      OwnStep(ms, keys, os, i);
    } else {
      OutcomeStays(ms, keys, os, i, j - 1);
      OtherStep(ms, keys, os, j - 1, keys[i]);
    }
  }

  /** A repeated request whose key stayed remembered repeats the outcome and changes nothing. */
  lemma RepeatedRequestReplays(ms: seq<Memory>, keys: seq<string>, os: seq<Outcome>, i: nat, j: nat)
    requires Run(ms, keys, os) && i < j < |keys| && keys[j] == keys[i] != ""
    requires forall t :: i < t <= j ==> keys[i] in ms[t].keys
    ensures os[j] == os[i] && ms[j + 1] == ms[j]
  {
    OutcomeStays(ms, keys, os, i, j);
    assert Handled(ms[j], keys[j], os[j], ms[j + 1]);
  }

  /** `key` is at most `d` places from the newest. */
  ghost predicate Recent(keys: seq<string>, key: string, d: nat) {
    exists p :: 0 <= p < |keys| && |keys| <= p + d + 1 && keys[p] == key
  }

  lemma NewestAt(all: seq<string>, p: nat)
    requires p < |all| && |all| <= p + IDEMPOTENCY_LIMIT
    ensures Recent(Newest(all), all[p], |all| - p - 1)
  {
    var drop := |all| - |Newest(all)|;
    assert Newest(all) == all[drop..] && Newest(all)[p - drop] == all[p];
  }

  /** One handled request moves a key at most one place towards eviction. */
  lemma RecentStep(m: Memory, key: string, o: Outcome, m': Memory, k: string, d: nat)
    requires Sound(m) && Handled(m, key, o, m') && Recent(m.keys, k, d) && d + 1 < IDEMPOTENCY_LIMIT
    ensures Recent(m'.keys, k, d + 1)
  {
    var p :| 0 <= p < |m.keys| && |m.keys| <= p + d + 1 && m.keys[p] == k;
    if key != "" && key !in m.keys {
      NewestAt(m.keys + [key], p);
    }
  }

  /** A key first handled at step `i` is still remembered after up to 49 further requests, whatever they
      are: `d` of them leave it at most `d` places from the newest. */
  lemma {:induction false} FirstHandlingRetained(ms: seq<Memory>, keys: seq<string>, os: seq<Outcome>, i: nat, d: nat)
    requires Run(ms, keys, os) && i + d + 1 < |ms| && d < IDEMPOTENCY_LIMIT
    requires keys[i] != "" && keys[i] !in ms[i].keys
    ensures Recent(ms[i + d + 1].keys, keys[i], d)
    decreases d
  {
    RunSound(ms, keys, os, i + d);
    assert Handled(ms[i + d], keys[i + d], os[i + d], ms[i + d + 1]);
    if d == 0 {
      NewestKeeps(ms[i].keys, keys[i]);
      assert ms[i + 1].keys[|ms[i + 1].keys| - 1] == keys[i];
    } else {
      FirstHandlingRetained(ms, keys, os, i, d - 1);
      RecentStep(ms[i + d], keys[i + d], os[i + d], ms[i + d + 1], keys[i], d - 1);
    }
  }

  /** Hence each of the next fifty requests that repeats the key replays its first outcome. */
  lemma FirstOutcomeReplays(ms: seq<Memory>, keys: seq<string>, os: seq<Outcome>, i: nat, j: nat)
    requires Run(ms, keys, os) && i < j < |keys| && j <= i + IDEMPOTENCY_LIMIT && keys[j] == keys[i] != ""
    requires keys[i] !in ms[i].keys
    ensures os[j] == os[i] && ms[j + 1] == ms[j]
  {
    forall t | i < t <= j
      ensures keys[i] in ms[t].keys
    {
      FirstHandlingRetained(ms, keys, os, i, t - i - 1);
    }
    RepeatedRequestReplays(ms, keys, os, i, j);
  }
}

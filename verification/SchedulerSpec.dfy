/** Selection over a rotation of targets with suspensions, and the share each target is guaranteed. */
module SchedulerSpec {
  import opened Wrappers

  type Time = int

  datatype Target = Target(provider: string, model: string, weight: int)

  /** The composite key under which a provider/model pair is suspended. */
  function SuspensionKey(provider: string, model: string): string {
    provider + ['\0'] + model
  }

  datatype State = State(index: nat, suspended: map<string, Time>)

  predicate IsSuspended(suspended: map<string, Time>, t: Target, now: Time) {
    var key := SuspensionKey(t.provider, t.model);
    key in suspended && now < suspended[key]
  }

  /** The target at a position of the endless rotation. */
  function Slot(targets: seq<Target>, p: nat): Target
    requires targets != []
  {
    targets[p % |targets|]
  }

  /** How many suspended targets lie ahead of position `i`, looking at no more than `tries` of them. */
  function SuspendedAhead(targets: seq<Target>, i: nat, tries: nat, suspended: map<string, Time>, now: Time): (k: nat)
    requires targets != []
    ensures k <= tries
    ensures forall p :: i <= p < i + k ==> IsSuspended(suspended, Slot(targets, p), now)
    ensures k < tries ==> !IsSuspended(suspended, Slot(targets, i + k), now)
    decreases tries
  {
    if tries == 0 || !IsSuspended(suspended, Slot(targets, i), now) then 0
    else 1 + SuspendedAhead(targets, i + 1, tries - 1, suspended, now)
  }

  /** One selection: skip what is suspended, return the next target and forget its expired suspension. */
  function Select(targets: seq<Target>, s: State, now: Time): (Option<Target>, State) {
    var n := |targets|;
    if n == 0 then (None, s)
    else
      var k := SuspendedAhead(targets, s.index, n, s.suspended, now);
      if k == n then (None, s.(index := s.index + n))
      else
        var t := Slot(targets, s.index + k);
        (Some(t), State(s.index + k + 1, s.suspended - {SuspensionKey(t.provider, t.model)}))
  }

  /** A failing response suspends the pair that served it. */
  function Respond(s: State, status: int, provider: string, model: string, now: Time, duration: int): State {
    if (status >= 500 || status == 429) && duration > 0 && model != "" then
      s.(suspended := s.suspended[SuspensionKey(provider, model) := now + duration])
    else s
  }

  /** What a policy instance sees: requests to route, and responses to earlier requests. */
  datatype Op = Pick(now: Time) | Response(status: int, provider: string, model: string, now: Time)

  function Step(targets: seq<Target>, duration: int, s: State, op: Op): State {
    match op
    case Pick(now) => Select(targets, s, now).1
    case Response(status, provider, model, now) => Respond(s, status, provider, model, now, duration)
  }

  function Run(targets: seq<Target>, duration: int, s: State, ops: seq<Op>): State
    decreases |ops|
  {
    if ops == [] then s else Run(targets, duration, Step(targets, duration, s, ops[0]), ops[1..])
  }

  /** The answers to the picks of a run, in order. */
  function Picked(targets: seq<Target>, duration: int, s: State, ops: seq<Op>): seq<Option<Target>>
    decreases |ops|
  {
    if ops == [] then []
    else
      (if ops[0].Pick? then [Select(targets, s, ops[0].now).0] else [])
      + Picked(targets, duration, Step(targets, duration, s, ops[0]), ops[1..])
  }

  // ---------------------------------------------------------------- one selection

  /** A suspended target is never returned, and nothing is returned only when everything is suspended. */
  lemma SelectSound(targets: seq<Target>, s: State, now: Time)
    ensures var (r, s') := Select(targets, s, now);
            && (r.None? <==> forall t :: t in targets ==> IsSuspended(s.suspended, t, now))
            && (r.Some? ==> r.value in targets && !IsSuspended(s.suspended, r.value, now))
            && (forall t :: IsSuspended(s'.suspended, t, now) <==> IsSuspended(s.suspended, t, now))
  {
    var n := |targets|;
    if n != 0 {
      if SuspendedAhead(targets, s.index, n, s.suspended, now) == n {
        forall t | t in targets
          ensures IsSuspended(s.suspended, t, now)
        {
          var j :| 0 <= j < n && targets[j] == t;
          var p := WithinRotation(s.index, j, n);
          assert Slot(targets, p) == t;
        }
      }
    }
  }

  /** Every slot comes up once within one rotation from any position. */
  lemma WithinRotation(i: nat, j: nat, n: nat) returns (p: nat)
    requires j < n
    ensures i <= p < i + n && p % n == j
  {
    var q, r := i / n, i % n;
    p := if r <= j then i - r + j else i - r + n + j;
    if r <= j {
      ModUnique(p, q, j, n);
    } else {
      assert p == (q + 1) * n + j;
      ModUnique(p, q + 1, j, n);
    }
  }

  lemma ModUnique(a: nat, q: nat, r: nat, n: nat)
    requires r < n && a == q * n + r
    ensures a % n == r
  {
    var q', r' := a / n, a % n;
    assert (q' - q) * n == r - r';
    if q' > q { MulAtLeast(q' - q, n); }
    if q > q' { assert (q - q') * n == r' - r; MulAtLeast(q - q', n); }
  }

  lemma MulAtLeast(x: nat, n: nat)
    requires x >= 1
    ensures x * n >= n
  {
    assert x * n == n + (x - 1) * n;
  }

  lemma AddModulus(a: nat, n: nat)
    requires n > 0
    ensures (a + n) % n == a % n
  {
    assert a + n == (a / n + 1) * n + a % n;
    ModUnique(a + n, a / n + 1, a % n, n);
  }
}

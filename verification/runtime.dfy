/** The runtime state of the script supervisor: one record per supervised
    name in the in-memory `processes` registry, plus the restart policy and
    the bounded-suffix operation used for the output tail.

    A Python record is a dict whose keys appear lazily (a record made by
    `setdefault(name, {})` has none of them), so every field that the
    source reads with `.get(key, default)` is an `Option` here and the
    default is applied with `GetOr`. */
module Runtime {

  datatype Option<T> = None | Some(value: T) {
    /** The value, or `default` when absent: Python's `d.get(key, default)`. */
    function GetOr(default: T): T {
      match this
      case Some(v) => v
      case None => default
    }
  }

  /** The three strings the source writes into a record's "status" key. */
  datatype Status = Stopped | Running | Error

  /** The restart policy as the supervisor loop distinguishes it. */
  datatype Policy = Never | OnFailure | Always

  /** Policy used when a script's configuration names none. */
  const DefaultPolicy: string := "on-failure"
  /** Characters of output kept per record. */
  const OutputCap: nat := 20000
  /** Characters of output replayed to a newly attached subscriber. */
  const SnapshotCap: nat := 2000
  /** Capacity of each subscriber queue (`queue.Queue(maxsize=1000)`). */
  const QueueCapacity: nat := 1000

  /** Identity of a subscriber queue object. */
  type QueueId = nat
  /** Lines waiting in a subscriber queue, oldest first. */
  type Queue = seq<string>

  /** One runtime record. `hasProcess` says the "process" and "start_time"
      keys have been written, which happens together at each launch; the
      thread handle and the start time themselves are not modelled. */
  datatype Record = Record(
    status: Option<Status>,
    policy: Option<string>,
    output: Option<string>,
    returnCode: Option<int>,
    shouldStop: Option<bool>,
    subscribers: Option<map<QueueId, Queue>>,
    hasProcess: bool)

  type Registry = map<string, Record>

  /** The record `setdefault(name, {})` creates: no keys at all. */
  const EmptyRecord: Record := Record(None, None, None, None, None, None, false)

  /** How the loop reads its policy string: only "on-failure" and "always"
      are recognised, and every other string behaves like "never". */
  function ParsePolicy(s: string): (p: Policy)
    ensures p == OnFailure <==> s == "on-failure"
    ensures p == Always <==> s == "always"
    ensures p == Never <==> s != "on-failure" && s != "always"
  {
    if s == "on-failure" then OnFailure
    else if s == "always" then Always
    else Never
  }

  /** A configuration string for each policy; reading it back gives the policy. */
  function PolicyName(p: Policy): (s: string)
    ensures ParsePolicy(s) == p
  {
    match p
    case Never => "never"
    case OnFailure => "on-failure"
    case Always => "always"
  }

  /** Python's `s[-n:]` for a positive `n`: the last `min(n, |s|)` characters. */
  function Tail(s: string, n: nat): (r: string)
    requires n > 0
    ensures |r| == if |s| <= n then |s| else n
  {
    if |s| <= n then s else s[|s| - n..]
  }

  /** The tail is a suffix: what it drops, followed by it, is the string. */
  lemma TailSuffix(s: string, n: nat)
    requires n > 0
    ensures s == s[..|s| - |Tail(s, n)|] + Tail(s, n)
  {
  }

  /** A string already within the bound is its own tail. */
  lemma TailOfShort(s: string, n: nat)
    requires n > 0 && |s| <= n
    ensures Tail(s, n) == s
  {
  }

  /** The tail of `p + q` depends only on `q` once `q` alone fills the bound. */
  lemma TailIgnoresPrefix(p: string, q: string, n: nat)
    requires n > 0 && |q| >= n
    ensures Tail(p + q, n) == Tail(q, n)
  {
    var s := p + q;
    assert s[|p|..] == q;
    assert s[|s| - n..] == s[|p|..][|q| - n..];
  }

  /** Truncating before appending loses nothing: keeping the last `n`
      characters after every append equals keeping them once at the end. */
  lemma TailAppend(a: string, b: string, n: nat)
    requires n > 0
    ensures Tail(Tail(a, n) + b, n) == Tail(a + b, n)
  {
    var t := Tail(a, n);
    TailSuffix(a, n);
    if |a| > n {
      var p := a[..|a| - n];
      assert a == p + t;
      assert a + b == p + (t + b);
      TailIgnoresPrefix(p, t + b, n);
    }
  }

  /** A shorter tail of a tail is the shorter tail of the whole string. */
  lemma TailOfTail(s: string, n: nat, m: nat)
    requires 0 < m <= n
    ensures Tail(Tail(s, n), m) == Tail(s, m)
  {
    var t := Tail(s, n);
    TailSuffix(s, n);
    if |t| >= m {
      var p := s[..|s| - |t|];
      assert s == p + t;
      TailIgnoresPrefix(p, t, m);
    }
  }

  /** Every record's output tail and every subscriber queue within its bound. */
  ghost predicate RecordBounded(r: Record) {
    && |r.output.GetOr("")| <= OutputCap
    && (r.subscribers.Some? ==>
          forall q :: q in r.subscribers.value ==> |r.subscribers.value[q]| <= QueueCapacity)
  }

  ghost predicate Bounded(reg: Registry) {
    forall n :: n in reg ==> RecordBounded(reg[n])
  }
}

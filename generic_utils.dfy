/** `generic/utils.py`: the race-tolerant `get` and the console-message options. */
module GenericUtils {
  import opened Common
  import opened Strings

  /** How one `qs.get(**kwargs)` ends: the row, `DoesNotExist`, or any other exception. */
  datatype GetAttempt<T> = Got(value: T) | Missing | Raised(error: string)

  /** How `retry_get` ends: it returns the row, or lets `DoesNotExist` or another exception out. */
  datatype GetOutcome<T> = Returned(value: T) | DoesNotExist | Error(error: string)

  /** The pause after each failed lookup, in seconds; there is no pause after the fifth. */
  const Delays: seq<real> := [0.5, 1.0, 2.0, 4.0]

  /** At most this many lookups are made. */
  const MaxLookups := 5

  /**
   * `retry_get`: `attempts[i]` is what the `i`-th lookup would give. Returns
   * the outcome and the pauses it made. It stops at the first lookup that does
   * not report a missing row, and after the fifth.
   */
  method RetryGet<T>(attempts: seq<GetAttempt<T>>) returns (r: GetOutcome<T>, slept: seq<real>)
    requires |attempts| >= MaxLookups
    ensures |slept| < MaxLookups && slept == Delays[..|slept|]
    ensures forall j :: 0 <= j < |slept| ==> attempts[j].Missing?
    ensures r.Returned? <==> attempts[|slept|].Got?
    ensures r.Returned? ==> r.value == attempts[|slept|].value
    ensures r.Error? <==> attempts[|slept|].Raised?
    ensures r.Error? ==> r.error == attempts[|slept|].error
    ensures r.DoesNotExist? <==> attempts[|slept|].Missing?
    ensures r.DoesNotExist? ==> |slept| == MaxLookups - 1
    ensures |slept| == StopIndex(attempts, 0)
  {
    slept := [];
    var i := 0;
    while true
      invariant 0 <= i < MaxLookups
      invariant slept == Delays[..i]
      invariant forall j :: 0 <= j < i ==> attempts[j].Missing?
      invariant StopIndex(attempts, i) == StopIndex(attempts, 0)
      decreases MaxLookups - i
    {
      match attempts[i]
      case Got(v) =>
        return Returned(v), slept;
      case Raised(e) =>
        return Error(e), slept;
      case Missing =>
        if i == MaxLookups - 1 {
          return DoesNotExist, slept;
        }
        slept := slept + [Delays[i]];
        i := i + 1;
    }
  }

  /** The first index at which the lookups stop reporting a missing row, capped at the last lookup. */
  function StopIndex<T>(attempts: seq<GetAttempt<T>>, i: nat): (k: nat)
    requires i < MaxLookups <= |attempts|
    ensures i <= k < MaxLookups
    ensures forall j :: i <= j < k ==> attempts[j].Missing?
    ensures k < MaxLookups - 1 ==> !attempts[k].Missing?
    decreases MaxLookups - i
  {
    if !attempts[i].Missing? || i == MaxLookups - 1 then i else StopIndex(attempts, i + 1)
  }

  /**
   * The total pause before `retry_get` gives up is 7.5 seconds, and it never
   * pauses more than that.
   */
  lemma TotalPause(slept: seq<real>)
    requires |slept| < MaxLookups && slept == Delays[..|slept|]
    ensures SumOf(slept) <= 7.5
    ensures |slept| == MaxLookups - 1 ==> SumOf(slept) == 7.5
  {
    assert SumOf(Delays[..0]) == 0.0;
    assert Delays[..1][..0] == Delays[..0];
    assert SumOf(Delays[..1]) == 0.5;
    assert Delays[..2][..1] == Delays[..1];
    assert SumOf(Delays[..2]) == 1.5;
    assert Delays[..3][..2] == Delays[..2];
    assert SumOf(Delays[..3]) == 3.5;
    assert Delays[..4][..3] == Delays[..3];
    assert SumOf(Delays[..4]) == 7.5;
  }

  function SumOf(s: seq<real>): real
  {
    if |s| == 0 then 0.0 else SumOf(s[..|s| - 1]) + s[|s| - 1]
  }

  /** The keyword arguments of `print_with_color` that it inspects: `fg` and `opts`. */
  datatype ColorArgs = ColorArgs(fg: Option<string>, opts: Option<seq<string>>)

  function Count(s: seq<string>, x: string): nat
  {
    if |s| == 0 then 0 else Count(s[..|s| - 1], x) + (if s[|s| - 1] == x then 1 else 0)
  }

  /**
   * The `bold` option: with `bold=True`, `opts` (created empty when absent)
   * names `'bold'` afterwards, exactly once when it did not before, and keeps
   * its other entries in order; without it nothing changes.
   */
  method BoldOption(args: ColorArgs, bold: bool) returns (out: ColorArgs)
    ensures !bold ==> out == args
    ensures bold ==> out.fg == args.fg && out.opts.Some?
    ensures bold ==> var before := if args.opts.Some? then args.opts.value else [];
      && "bold" in out.opts.value
      && Count(out.opts.value, "bold") == (if "bold" in before then Count(before, "bold") else 1)
      && |before| <= |out.opts.value| <= |before| + 1
      && out.opts.value[..|before|] == before
  {
    out := args;
    if bold {
      var opts := if args.opts.Some? then args.opts.value else [];
      if "bold" !in opts {
        CountZeroIff(opts, "bold");
        assert (opts + ["bold"])[..|opts|] == opts;
        opts := opts + ["bold"];
      }
      out := out.(opts := Some(opts));
    }
  }

  /** Appending `'bold'` when it is missing is what makes the count one. */
  lemma {:induction false} CountZeroIff(s: seq<string>, x: string)
    ensures Count(s, x) == 0 <==> x !in s
  {
    if |s| > 0 {
      CountZeroIff(s[..|s| - 1], x);
      assert s == s[..|s| - 1] + [s[|s| - 1]];
    }
  }

  /** Which kind of uWSGI process is printing. */
  datatype Process = Mule(id: nat) | Worker(id: nat) | MasterProcess | Spooler(pid: nat)

  /**
   * The process that prints: a mule first, then a worker, then the master
   * (its pid is this pid), and otherwise a spooler. Outside uWSGI all three
   * ids are 0.
   */
  function WhoPrints(pid: nat, master: nat, worker: nat, mule: nat): (p: Process)
    ensures p.Mule? <==> mule != 0
    ensures p.Worker? <==> mule == 0 && worker != 0
    ensures p.MasterProcess? <==> mule == 0 && worker == 0 && pid == master
    ensures p.Spooler? <==> mule == 0 && worker == 0 && pid != master
    ensures p.Mule? ==> p.id == mule
    ensures p.Worker? ==> p.id == worker
    ensures p.Spooler? ==> p.pid == pid
  {
    if mule != 0 then Mule(mule)
    else if worker != 0 then Worker(worker)
    else if pid == master then MasterProcess
    else Spooler(pid)
  }

  /** The tag in front of every message. */
  function Prefix(p: Process): string
  {
    match p
    case Mule(id) => "[mule " + NatToString(id) + "] "
    case Worker(id) => "[worker " + NatToString(id) + "] "
    case MasterProcess => "[master] "
    case Spooler(pid) => "[spooler " + NatToString(pid) + "] "
  }

  /** Different processes print different prefixes, so a message can be traced to its process. */
  lemma PrefixInjective(p: Process, q: Process)
    requires Prefix(p) == Prefix(q)
    ensures p == q
  {
    match p
    case Mule(a) =>
      assert Prefix(q)[1] == 'm' && Prefix(q)[2] == 'u';
      assert q.Mule?;
      PrefixedNumber("[mule ", a, q.id);
    case Worker(a) =>
      assert Prefix(q)[1] == 'w';
      assert q.Worker?;
      PrefixedNumber("[worker ", a, q.id);
    case MasterProcess =>
      assert Prefix(q)[1] == 'm' && Prefix(q)[2] == 'a';
    case Spooler(a) =>
      assert Prefix(q)[1] == 's';
      assert q.Spooler?;
      PrefixedNumber("[spooler ", a, q.pid);
  }

  lemma PrefixedNumber(head: string, a: nat, b: nat)
    requires head + NatToString(a) + "] " == head + NatToString(b) + "] "
    ensures a == b
  {
    var s := head + NatToString(a) + "] ";
    assert NatToString(a) == s[|head|..|s| - 2];
    assert NatToString(b) == s[|head|..|s| - 2];
    NatToStringInjective(a, b);
  }

  /** Outside uWSGI (the import fails, all ids 0) a real process, whose pid is never 0, prints as a spooler. */
  lemma OutsideUwsgiIsSpooler(pid: nat)
    requires pid > 0
    ensures WhoPrints(pid, 0, 0, 0) == Spooler(pid)
  {
  }
}

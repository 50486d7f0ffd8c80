// `ProcessPool` (src/process.rs): a fixed number of `lit run` processes
// spawned one after the other, and round-robin selection through a counter
// that every pool of the program shares.

module Pool {
  import opened Base
  import opened Supervisor

  /** `usize` on a 64-bit target: `fetch_add` wraps around at this value. */
  const UsizeLimit: nat := 0x1_0000_0000_0000_0000

  const NotInitialized: string := "Process pool not initialized"

  /** `static COUNTER: AtomicUsize`, one object shared by every pool. */
  class Counter {
    var value: nat

    ghost predicate Valid()
      reads this
    {
      value < UsizeLimit
    }

    constructor ()
      ensures Valid() && value == 0
    {
      value := 0;
    }

    /** `fetch_add(1)`: the value before, and one more, wrapping around. */
    method FetchAdd() returns (prev: nat)
      requires Valid()
      modifies this
      ensures Valid() && prev == old(value)
      ensures value == (old(value) + 1) % UsizeLimit
    {
      prev := value;
      value := (value + 1) % UsizeLimit;
    }
  }

  /**
   * What `initialize` achieves for slots `k` .. `n` - 1: the backends of the
   * processes it started, in order, and the error of the spawn that failed,
   * if one did.  `launches(k)` is what the OS does for the k-th spawn.
   */
  datatype Started = Started(backends: seq<Backend>, failure: Option<string>)

  function StartFrom(model: string, launches: nat -> (seq<string> -> bool), k: nat, n: nat): (s: Started)
    requires k <= n
    ensures |s.backends| <= n - k
    ensures s.failure.None? ==> |s.backends| == n - k
    decreases n - k
  {
    if k == n then Started([], None)
    else
      var spawned := Spawn(model, launches(k));
      match spawned.result
      case Err(e) => Started([], Some(e))
      case Ok(b) =>
        var rest := StartFrom(model, launches, k + 1, n);
        Started([b] + rest.backends, rest.failure)
  }

  /**
   * The spawns go in slot order and stop at the first failure: each started
   * process is the one its slot's spawn gave, and when a spawn failed it is
   * the one right after the last started process.
   */
  lemma {:induction false} StartFromInOrder(model: string, launches: nat -> (seq<string> -> bool), k: nat, n: nat)
    requires k <= n
    ensures var s := StartFrom(model, launches, k, n);
      && (forall j :: 0 <= j < |s.backends| ==> Spawn(model, launches(k + j)).result == Ok(s.backends[j]))
      && (s.failure.Some? ==>
            && k + |s.backends| < n
            && Spawn(model, launches(k + |s.backends|)).result == Err(s.failure.value))
    decreases n - k
  {
    if k < n && Spawn(model, launches(k)).result.Ok? {
      StartFromInOrder(model, launches, k + 1, n);
      StartFromStep(model, launches, k, n);
      var s := StartFrom(model, launches, k, n);
      var rest := StartFrom(model, launches, k + 1, n);
      forall j | 0 <= j < |s.backends|
        ensures Spawn(model, launches(k + j)).result == Ok(s.backends[j])
      {
        if j > 0 {
          assert s.backends[j] == rest.backends[j - 1];
          assert k + j == (k + 1) + (j - 1);
        }
      }
      assert s.failure == rest.failure && k + |s.backends| == (k + 1) + |rest.backends|;
    }
  }

  /** A slot whose spawn succeeded contributes its backend in front of the rest. */
  lemma StartFromStep(model: string, launches: nat -> (seq<string> -> bool), k: nat, n: nat)
    requires k < n && Spawn(model, launches(k)).result.Ok?
    ensures var rest := StartFrom(model, launches, k + 1, n);
      StartFrom(model, launches, k, n) == Started([Spawn(model, launches(k)).result.value] + rest.backends, rest.failure)
  {
  }

  class ProcessPool {
    const model: string
    /** `Vec::with_capacity(pool_size).capacity()`, taken to be `pool_size`. */
    const capacity: nat
    /** The backend each started process runs on, in the order they were pushed. */
    var processes: seq<Backend>

    constructor (model: string, poolSize: nat)
      ensures this.model == model && capacity == poolSize && processes == []
    {
      this.model := model;
      capacity := poolSize;
      processes := [];
    }

    /** `initialize`: spawn `capacity` processes; the first failure is returned
        and what was already pushed stays. */
    method Initialize(launches: nat -> (seq<string> -> bool)) returns (r: Result<(), string>)
      modifies this`processes
      ensures var s := StartFrom(model, launches, 0, capacity);
        && processes == old(processes) + s.backends
        && (r.Ok? <==> s.failure.None?)
        && (r.Err? ==> r.error == s.failure.value)
    {
      var k := 0;
      while k < capacity
        invariant k <= capacity
        invariant var s := StartFrom(model, launches, 0, capacity);
          var rest := StartFrom(model, launches, k, capacity);
          && s.failure == rest.failure
          && old(processes) + s.backends == processes + rest.backends
        decreases capacity - k
      {
        var spawned := Spawn(model, launches(k));
        match spawned.result {
          case Err(e) =>
            return Err(e);
          case Ok(b) =>
            processes := processes + [b];
            k := k + 1;
        }
      }
      r := Ok(());
    }

    /** `get_process`: an empty pool is an error and leaves the counter alone;
        otherwise the index is the counter modulo the pool size. */
    method GetProcess(counter: Counter) returns (r: Result<nat, string>)
      requires counter.Valid()
      modifies counter
      ensures counter.Valid()
      ensures processes == [] ==> r == Err(NotInitialized) && counter.value == old(counter.value)
      ensures processes != [] ==>
        && r == Ok(old(counter.value) % |processes|)
        && r.value < |processes|
        && counter.value == (old(counter.value) + 1) % UsizeLimit
    {
      if processes == [] {
        return Err(NotInitialized);
      }
      var ticket := counter.FetchAdd();
      r := Ok(ticket % |processes|);
    }

    /**
     * `k` successive selections, no other pool taking a ticket in between:
     * the i-th picks the counter's value at that call modulo the pool size.
     * Without a wrap-around that is `Picks`, so `n` selections from a pool
     * of `n` processes pick each process once.
     */
    method GetProcesses(counter: Counter, k: nat) returns (picks: seq<nat>)
      requires counter.Valid() && processes != []
      modifies counter
      ensures counter.Valid() && counter.value == (old(counter.value) + k) % UsizeLimit
      ensures |picks| == k
      ensures forall i :: 0 <= i < k ==> picks[i] == ((old(counter.value) + i) % UsizeLimit) % |processes|
      ensures old(counter.value) + k <= UsizeLimit ==> picks == Picks(old(counter.value), |processes|, k)
      ensures old(counter.value) + k <= UsizeLimit && k == |processes| ==>
        forall i, j :: 0 <= i < j < k ==> picks[i] != picks[j]
    {
      ghost var c := counter.value;
      picks := [];
      var j := 0;
      while j < k
        invariant j <= k && counter.Valid()
        invariant counter.value == (c + j) % UsizeLimit
        invariant |picks| == j
        invariant forall i :: 0 <= i < j ==> picks[i] == ((c + i) % UsizeLimit) % |processes|
      {
        ghost var before := counter.value;
        var r := GetProcess(counter);
        assert r.value == before % |processes|;
        picks := picks + [r.value];
        ModSucc(c + j, UsizeLimit);
        j := j + 1;
      }
      NoWrap(c, k, |processes|, picks);
    }

    /**
     * `send_prompt`: pick a process, then that process's own `send_prompt`,
     * whose outcome for process `i` is `answer(i, prompt)`.
     */
    method SendPrompt(counter: Counter, prompt: string, answer: (nat, string) -> Result<string, string>)
      returns (r: Result<string, string>)
      requires counter.Valid()
      modifies counter
      ensures counter.Valid()
      ensures processes == [] ==> r == Err(NotInitialized) && counter.value == old(counter.value)
      ensures processes != [] ==>
        && r == answer(old(counter.value) % |processes|, prompt)
        && counter.value == (old(counter.value) + 1) % UsizeLimit
    {
      var picked := GetProcess(counter);
      if picked.Err? {
        return Err(picked.error);
      }
      r := answer(picked.value, prompt);
    }
  }

  /** A multiple of `n` below `n` is zero. */
  lemma SmallMultiple(k: nat, n: nat)
    requires n > 0 && k * n < n
    ensures k == 0
  {
  }

  /** `x` = `q` * `n` + `s` with `s` < `n` fixes the remainder. */
  lemma ModUnique(x: nat, q: nat, s: nat, n: nat)
    requires s < n && x == q * n + s
    ensures x % n == s
  {
    var q', s' := x / n, x % n;
    if q' < q {
      assert (q - q') * n == s' - s;
      SmallMultiple(q - q', n);
    } else if q < q' {
      assert (q' - q) * n == s - s';
      SmallMultiple(q' - q, n);
    }
  }

  /** Counting on from a remainder is counting on, then taking the remainder. */
  lemma ModSucc(x: nat, n: nat)
    requires n > 0
    ensures (x % n + 1) % n == (x + 1) % n
  {
    var q, r := x / n, x % n;
    if r + 1 < n {
      ModUnique(r + 1, 0, r + 1, n);
      ModUnique(x + 1, q, r + 1, n);
    } else {
      ModUnique(r + 1, 1, 0, n);
      ModUnique(x + 1, q + 1, 0, n);
    }
  }

  /** Without a wrap-around, the wrapped tickets pick what `Picks` picks, each process once in `n` picks. */
  lemma NoWrap(c: nat, k: nat, n: nat, picks: seq<nat>)
    requires n > 0 && |picks| == k
    requires forall i :: 0 <= i < k ==> picks[i] == ((c + i) % UsizeLimit) % n
    ensures c + k <= UsizeLimit ==> picks == Picks(c, n, k)
    ensures c + k <= UsizeLimit && k == n ==> forall i, j :: 0 <= i < j < k ==> picks[i] != picks[j]
  {
    if c + k <= UsizeLimit {
      forall i | 0 <= i < k
        ensures picks[i] == (c + i) % n
      {
        ModUnique(c + i, 0, c + i, UsizeLimit);
      }
      if k == n {
        RoundRobin(c, n);
      }
    }
  }

  lemma DistinctResidues(a: nat, d: nat, n: nat)
    requires 0 < d < n
    ensures a % n != (a + d) % n
  {
    var q, r := a / n, a % n;
    if r + d < n {
      ModUnique(a + d, q, r + d, n);
    } else {
      ModUnique(a + d, q + 1, r + d - n, n);
    }
  }

  /** The indices `get_process` hands out for `k` calls starting at counter `c`. */
  function Picks(c: nat, n: nat, k: nat): (p: seq<nat>)
    requires n > 0
    ensures |p| == k && forall j :: 0 <= j < k ==> p[j] == (c + j) % n
  {
    seq(k, j requires 0 <= j < k => (c + j) % n)
  }

  /**
   * Round robin: as long as the shared counter does not wrap around, `n`
   * consecutive selections from a pool of `n` processes pick every process
   * exactly once.
   */
  lemma RoundRobin(c: nat, n: nat)
    requires n > 0
    ensures var p := Picks(c, n, n);
      && (forall j :: 0 <= j < n ==> p[j] < n)
      && (forall i, j :: 0 <= i < j < n ==> p[i] != p[j])
  {
    var p := Picks(c, n, n);
    forall i, j | 0 <= i < j < n
      ensures p[i] != p[j]
    {
      var a, d := c + i, j - i;
      DistinctResidues(a, d, n);
      assert a + d == c + j;
    }
  }
}

/** Port selection and the shared adaptive timeout of the port scanner. */
module PortScan {
  import opened Digraph
  import opened Powers

  // ---------------------------------------------------------------- port lists

  predicate ValidPort(p: int) {
    1 <= p <= 65535
  }

  function FirstIndex(ports: seq<int>, p: int): (i: nat)
    requires p in ports
    ensures i < |ports| && ports[i] == p && p !in ports[..i]
  {
    if ports[0] == p then 0
    else
      var i := 1 + FirstIndex(ports[1..], p);
      assert ports[..i] == [ports[0]] + ports[1..][..i - 1];
      i
  }

  lemma {:induction false} FirstOccurrence(ports: seq<int>, k: nat)
    requires k < |ports| && ports[k] !in ports[..k]
    ensures FirstIndex(ports, ports[k]) == k
  {
    if k > 0 {
      assert ports[0] == ports[..k][0];
      assert ports[1..][..k - 1] == ports[..k][1..];
      FirstOccurrence(ports[1..], k - 1);
    }
  }

  /** Keeps the first occurrence of every valid port, in the order given. */
  method UniquePorts(ports: seq<int>) returns (out: seq<int>)
    ensures NoDuplicates(out)
    ensures forall p :: p in out <==> p in ports && ValidPort(p)
    ensures forall i, j :: 0 <= i < j < |out| ==> FirstIndex(ports, out[i]) < FirstIndex(ports, out[j])
  {
    var seen: map<int, bool> := map[];
    out := [];
    for k := 0 to |ports|
      invariant NoDuplicates(out)
      invariant forall p :: p in out <==> p in ports[..k] && ValidPort(p)
      invariant forall p :: p in seen <==> p in out
      invariant forall p :: p in out ==> p in ports
      invariant forall i :: 0 <= i < |out| ==> FirstIndex(ports, out[i]) < k
      invariant forall i, j :: 0 <= i < j < |out| ==> FirstIndex(ports, out[i]) < FirstIndex(ports, out[j])
    {
      var port := ports[k];
      assert ports[..k + 1] == ports[..k] + [port];
      if port < 1 || port > 65535 || port in seen {
        continue;
      }
      FirstOccurrence(ports, k);
      seen := seen[port := true];
      out := out + [port];
    }
    assert ports[..|ports|] == ports;
  }

  method EveryPort() returns (ports: seq<int>)
    ensures |ports| == 65535 && forall i :: 0 <= i < |ports| ==> ports[i] == i + 1
  {
    ports := [];
    for port := 1 to 65536
      invariant |ports| == port - 1 && forall i :: 0 <= i < |ports| ==> ports[i] == i + 1
    {
      ports := ports + [port];
    }
  }

  // The table of the "standard" profile, in four rows.
  const SYSTEM_TCP: seq<int> := [21, 22, 25, 53, 80, 110, 111, 135, 139, 143, 389, 443]
  const MAIL_TCP: seq<int> := [445, 465, 587, 636, 993, 995, 1433, 1521, 2049, 2375, 2376, 2379]
  const SERVICE_TCP: seq<int> := [3000, 3306, 3389, 5000, 5001, 5432, 5601, 5900, 5985, 5986, 6379, 6443]
  const WEB_TCP: seq<int> := [8000, 8080, 8443, 8888, 9200, 9300, 10250, 10255, 11211, 27017]
  const STANDARD_TCP: seq<int> := SYSTEM_TCP + MAIL_TCP + SERVICE_TCP + WEB_TCP

  const QUICK_TCP: seq<int> := [22, 80, 443, 8000, 8080, 8443]

  predicate AscendingWithin(s: seq<int>, lo: int, hi: int) {
    && (forall i :: 0 <= i < |s| ==> lo <= s[i] <= hi)
    && (forall i, j :: 0 <= i < j < |s| ==> s[i] < s[j])
  }

  lemma AscendingConcat(a: seq<int>, b: seq<int>, lo: int, mid: int, hi: int)
    requires AscendingWithin(a, lo, mid) && AscendingWithin(b, mid + 1, hi) && lo <= mid < hi
    ensures AscendingWithin(a + b, lo, hi)
  {
  }

  lemma StandardPorts()
    ensures NoDuplicates(STANDARD_TCP) && forall p :: p in STANDARD_TCP ==> ValidPort(p)
  {
    assert AscendingWithin(SYSTEM_TCP, 1, 443);
    assert AscendingWithin(MAIL_TCP, 444, 2379);
    assert AscendingWithin(SERVICE_TCP, 2380, 6443);
    assert AscendingWithin(WEB_TCP, 6444, 65535);
    AscendingConcat(SYSTEM_TCP, MAIL_TCP, 1, 443, 2379);
    AscendingConcat(SYSTEM_TCP + MAIL_TCP, SERVICE_TCP, 1, 2379, 6443);
    AscendingConcat(SYSTEM_TCP + MAIL_TCP + SERVICE_TCP, WEB_TCP, 1, 6443, 65535);
  }

  /** The configured TCP ports; `profile` is the profile name in lower case. */
  method ResolveTCPPorts(profile: string, override: seq<int>) returns (ports: seq<int>)
    ensures NoDuplicates(ports) && forall p :: p in ports ==> ValidPort(p)
    ensures override != [] ==> forall p :: p in ports <==> p in override && ValidPort(p)
    ensures override != [] ==>
      forall i, j :: 0 <= i < j < |ports| ==> FirstIndex(override, ports[i]) < FirstIndex(override, ports[j])
    ensures override == [] && (profile == "exhaustive" || profile == "full") ==>
      forall p :: p in ports <==> ValidPort(p)
    ensures override == [] && profile == "standard" ==> ports == STANDARD_TCP
    ensures override == [] && profile !in {"exhaustive", "full", "standard"} ==> ports == QUICK_TCP
  {
    if |override| > 0 {
      ports := UniquePorts(override);
    } else if profile == "exhaustive" || profile == "full" {
      ports := EveryPort();
      forall p | ValidPort(p) ensures p in ports { assert ports[p - 1] == p; }
    } else if profile == "standard" {
      ports := STANDARD_TCP;
      StandardPorts();
    } else {
      ports := QUICK_TCP;
    }
  }

  // ---------------------------------------------------------------- adaptive timeout

  const MILLISECOND := 1_000_000

  datatype Observation = Observation(success: bool, latency: int)

  datatype Timing = Timing(timeout: int, max: int, failures: nat) {
    predicate InBounds() {
      0 < timeout <= max
    }

    function Observe(o: Observation): Timing {
      if o.success then
        var next := if 4 * o.latency < 250 * MILLISECOND then 250 * MILLISECOND else 4 * o.latency;
        this.(failures := 0, timeout := if next > max then max else next)
      else if (failures + 1) % 25 == 0 then
        this.(failures := failures + 1, timeout := if 2 * timeout > max then max else 2 * timeout)
      else
        this.(failures := failures + 1)
    }

    /** The state after any number of observations, in the order in which they took the lock. */
    function After(os: seq<Observation>): Timing {
      if os == [] then this else After(os[..|os| - 1]).Observe(os[|os| - 1])
    }
  }

  class ScanTiming {
    var timeout: int
    var max: int
    var failures: nat

    function View(): Timing
      reads this
    {
      Timing(timeout, max, failures)
    }

    constructor (base: int, max: int)
      ensures View() == Timing(base, max, 0)
    {
      this.timeout, this.max, this.failures := base, max, 0;
    }

    method Observe(success: bool, latency: int)
      modifies this
      ensures View() == old(View()).Observe(Observation(success, latency))
    {
      if success {
        failures := 0;
        var next := latency * 4;
        if next < 250 * MILLISECOND {
          next := 250 * MILLISECOND;
        }
        if next > max {
          next := max;
        }
        timeout := next;
        return;
      }
      failures := failures + 1;
      if failures > 0 && failures % 25 == 0 {
        timeout := timeout * 2;
        if timeout > max {
          timeout := max;
        }
      }
    }
  }

  /** Whatever is observed in whatever order, the timeout stays positive and at most the maximum. */
  lemma {:induction false} TimeoutStaysInBounds(t: Timing, os: seq<Observation>)
    requires t.InBounds()
    ensures t.After(os).InBounds() && t.After(os).max == t.max
  {
    if os != [] {
      TimeoutStaysInBounds(t, os[..|os| - 1]);
    }
  }

  /** One success forgets the whole past: four times its latency, but at least 250 ms and at most the maximum. */
  lemma SuccessResets(t: Timing, u: Timing, os: seq<Observation>, us: seq<Observation>, latency: int)
    requires t.InBounds() && u.InBounds() && t.max == u.max
    ensures t.After(os + [Observation(true, latency)]) == u.After(us + [Observation(true, latency)])
    ensures var s := t.After(os + [Observation(true, latency)]);
      && s.failures == 0 && s.max == t.max
      && s.timeout == Min(t.max, if latency >= 62_500_000 then latency + latency + latency + latency else 250_000_000)
  {
    var last := Observation(true, latency);
    TimeoutStaysInBounds(t, os);
    TimeoutStaysInBounds(u, us);
    assert (os + [last])[..|os|] == os && (us + [last])[..|us|] == us;
  }

  function Min(a: int, b: int): int {
    if a < b then a else b
  }

  function Failures(n: nat): seq<Observation> {
    seq(n, _ => Observation(false, 0))
  }

  lemma {:induction false} QuotientStep(a: nat)
    ensures (a + 1) / 25 == a / 25 + (if (a + 1) % 25 == 0 then 1 else 0)
  {
  }

  lemma Doubling(t: Timing, e: nat)
    requires t.InBounds()
    ensures Pow2(e) >= 1 && t.timeout * Pow2(e + 1) == 2 * (t.timeout * Pow2(e))
    ensures Min(t.max, 2 * Min(t.max, t.timeout * Pow2(e))) == Min(t.max, t.timeout * Pow2(e + 1))
  {
    var x := t.timeout * Pow2(e);
    assert Pow2(e + 1) == 2 * Pow2(e);
    assert t.timeout * (2 * Pow2(e)) == 2 * x;
  }

  /** The failure after n others, of which e doubled the timeout. */
  lemma OneMoreFailure(t: Timing, n: nat, e: nat)
    requires t.InBounds()
    ensures Timing(Min(t.max, t.timeout * Pow2(e)), t.max, t.failures + n).Observe(Observation(false, 0)) ==
            Timing(Min(t.max, t.timeout * Pow2(if (t.failures + n + 1) % 25 == 0 then e + 1 else e)), t.max,
                   t.failures + n + 1)
  {
    Doubling(t, e);
  }

  /** n failures in a row double the timeout once per multiple of 25 the counter passes, up to the maximum. */
  lemma {:induction false} ConsecutiveFailures(t: Timing, n: nat)
    requires t.InBounds()
    ensures (t.failures + n) / 25 >= t.failures / 25
    ensures t.After(Failures(n))
         == Timing(Min(t.max, t.timeout * Pow2((t.failures + n) / 25 - t.failures / 25)), t.max, t.failures + n)
  {
    if n > 0 {
      ConsecutiveFailures(t, n - 1);
      assert Failures(n)[..n - 1] == Failures(n - 1);
      QuotientStep(t.failures + n - 1);
      OneMoreFailure(t, n - 1, (t.failures + n - 1) / 25 - t.failures / 25);
    }
  }
}

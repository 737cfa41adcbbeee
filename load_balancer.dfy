/**
 * The round-robin load balancer: a cursor into the backend list that every
 * incoming request reads and then advances, whether or not proxying succeeds.
 */
module LoadBalancer {

  /** The backend list the balancer is deployed with. */
  const Backends: seq<string> := ["http://localhost:3000", "http://localhost:3001"]

  /** What the client sees: the backend's own response, or the 502 "Bad gateway error." reply. */
  datatype Reply = Forwarded(target: string) | BadGateway

  /** The cursor after one request: one step on, wrapping to the first backend. */
  function NextIndex(i: nat, n: nat): (r: nat)
    requires n > 0
    ensures r < n
    ensures i < n - 1 ==> r == i + 1
    ensures i == n - 1 ==> r == 0
  {
    (i + 1) % n
  }

  /** The backend index of request number `k` of a run that started with the cursor at `start`. */
  function Slot(start: nat, k: nat, n: nat): nat
    requires n > 0
  {
    (start + k) % n
  }

  /** A positive multiple of `n` is at least `n`. */
  lemma {:induction false} MulAtLeast(n: nat, k: int)
    requires n > 0 && k >= 1
    ensures n * k >= n
  {
    if k > 1 {
      MulAtLeast(n, k - 1);
      assert n * k == n * (k - 1) + n;
    }
  }

  /** Quotient and remainder are unique. */
  lemma DivModUnique(x: int, n: nat, q: int, r: int)
    requires n > 0 && 0 <= r < n && x == n * q + r
    ensures x / n == q && x % n == r
  {
    var q', r' := x / n, x % n;
    assert n * q' + r' == n * q + r;
    assert n * (q' - q) == r - r';
    if q' - q >= 1 {
      MulAtLeast(n, q' - q);
    } else if q - q' >= 1 {
      MulAtLeast(n, q - q');
    }
  }

  /** Two numbers less than `n` apart with equal residues are equal. */
  lemma SameResidueClose(a: nat, b: nat, n: nat)
    requires n > 0 && a <= b < a + n
    requires a % n == b % n
    ensures a == b
  {
    var qa, qb := a / n, b / n;
    assert b - a == n * (qb - qa) + 0;
    DivModUnique(b - a, n, qb - qa, 0);
    DivModUnique(b - a, n, 0, b - a);
  }

  /** Position `(j - start) mod n` of the window lands on backend `j`. */
  lemma ResidueReached(start: nat, n: nat, j: nat)
    requires n > 0 && j < n
    ensures 0 <= (j - start) % n < n
    ensures Slot(start, (j - start) % n, n) == j
  {
    var q := (j - start) / n;
    var i0 := (j - start) % n;
    assert j - start == n * q + i0;
    assert start + i0 == n * (-q) + j;
    DivModUnique(start + i0, n, -q, j);
  }

  /**
   * Over any `n` consecutive requests, backend `j` is chosen exactly once:
   * the set of positions in the window that land on `j` is a singleton.
   */
  lemma EachBackendOncePerWindow(start: nat, n: nat, j: nat)
    requires n > 0 && j < n
    ensures (set i: nat | i < n && Slot(start, i, n) == j) == {(j - start) % n}
  {
    var i0 := (j - start) % n;
    ResidueReached(start, n, j);
    forall i: nat | i < n && Slot(start, i, n) == j
      ensures i == i0
    {
      if i <= i0 {
        SameResidueClose(start + i, start + i0, n);
      } else {
        SameResidueClose(start + i0, start + i, n);
      }
    }
  }

  class Balancer {
    const servers: seq<string>
    /** `currentIndex`: the backend the next request goes to. */
    var currentIndex: nat
    /** The number of requests handled so far. */
    ghost var handled: nat

    /** The cursor is always a valid index and counts requests modulo the list length. */
    ghost predicate Valid()
      reads this
    {
      |servers| > 0 && currentIndex < |servers| && currentIndex == handled % |servers|
    }

    constructor (servers: seq<string>)
      requires |servers| > 0
      ensures Valid()
      ensures this.servers == servers && currentIndex == 0 && handled == 0
    {
      this.servers := servers;
      currentIndex := 0;
      handled := 0;
    }

    /**
     * The request handler: the request goes to `servers[currentIndex]`, the
     * cursor advances first, and a failing proxy call only changes the reply.
     * The k-th request (from 0) goes to `servers[k % servers.length]`.
     */
    method HandleRequest(proxyFails: bool) returns (target: string, reply: Reply)
      requires Valid()
      modifies this`currentIndex, this`handled
      ensures Valid()
      ensures target == servers[old(currentIndex)]
      ensures target == servers[old(handled) % |servers|]
      ensures currentIndex == (old(currentIndex) + 1) % |servers|
      ensures handled == old(handled) + 1
      ensures reply == if proxyFails then BadGateway else Forwarded(target)
    {
      target := servers[currentIndex];
      currentIndex := NextIndex(currentIndex, |servers|);
      handled := handled + 1;
      assert currentIndex == handled % |servers| by {
        ResidueStep(handled - 1, |servers|);
      }
      reply := if proxyFails then BadGateway else Forwarded(target);
    }
  }

  /** The residue of `k + 1` is the successor of the residue of `k`, wrapping at `n`. */
  lemma ResidueStep(k: nat, n: nat)
    requires n > 0
    ensures (k + 1) % n == (k % n + 1) % n
  {
    var q, r := k / n, k % n;
    assert k == n * q + r;
    if r + 1 < n {
      DivModUnique(k + 1, n, q, r + 1);
      DivModUnique(r + 1, n, 0, r + 1);
    } else {
      assert k + 1 == n * (q + 1) + 0;
      DivModUnique(k + 1, n, q + 1, 0);
      DivModUnique(r + 1, n, 1, 0);
    }
  }

  /** With the deployed list the balancer alternates between its two backends. */
  method AlternatesBetweenBackends()
  {
    var lb := new Balancer(Backends);
    var t0, r0 := lb.HandleRequest(false);
    var t1, r1 := lb.HandleRequest(true);
    var t2, r2 := lb.HandleRequest(false);
    assert t0 == "http://localhost:3000" && t1 == "http://localhost:3001" && t2 == t0;
    assert r1 == BadGateway && lb.currentIndex == 1;
  }
}

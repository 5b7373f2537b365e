/** The connect pipeline: candidates are deduplicated, ordered, grouped and tried. */
module Connect {
  import opened Wrappers
  import opened Domain

  datatype Address = Address(ip: string, port: nat)

  datatype Candidate = Candidate(address: Address, directTls: bool)

  // ----- removing duplicates -----------------------------------------------------------------------

  predicate FirstAt(xs: seq<Candidate>, i: int) {
    0 <= i < |xs| && xs[i] !in xs[..i]
  }

  /** The positions of first occurrences, in order. */
  function FirstPositions(xs: seq<Candidate>): seq<nat> {
    if xs == [] then []
    else FirstPositions(xs[..|xs| - 1]) + if FirstAt(xs, |xs| - 1) then [|xs| - 1] else []
  }

  function KeepFirst(xs: seq<Candidate>): seq<Candidate> {
    if xs == [] then []
    else KeepFirst(xs[..|xs| - 1]) + if FirstAt(xs, |xs| - 1) then [xs[|xs| - 1]] else []
  }

  lemma FirstAtPrefix(xs: seq<Candidate>, i: int)
    requires xs != [] && i < |xs| - 1
    ensures FirstAt(xs, i) <==> FirstAt(xs[..|xs| - 1], i)
  {
    if 0 <= i {
      assert xs[..|xs| - 1][..i] == xs[..i];
    }
  }

  lemma {:induction false} FirstPositionsIncrease(xs: seq<Candidate>)
    ensures forall k :: 0 <= k < |FirstPositions(xs)| ==> FirstPositions(xs)[k] < |xs|
    ensures forall j, k :: 0 <= j < k < |FirstPositions(xs)| ==> FirstPositions(xs)[j] < FirstPositions(xs)[k]
  {
    hide FirstAt;
    if xs != [] {
      FirstPositionsIncrease(xs[..|xs| - 1]);
    }
  }

  lemma {:induction false} FirstPositionsAreTheFirsts(xs: seq<Candidate>, i: nat)
    ensures i in FirstPositions(xs) <==> FirstAt(xs, i)
  {
    if xs != [] {
      FirstPositionsIncrease(xs[..|xs| - 1]);
      FirstPositionsAreTheFirsts(xs[..|xs| - 1], i);
      if i < |xs| - 1 {
        FirstAtPrefix(xs, i);
      }
    }
  }

  lemma {:induction false} KeepFirstReadsFirstPositions(xs: seq<Candidate>)
    ensures |KeepFirst(xs)| == |FirstPositions(xs)|
    ensures forall k :: 0 <= k < |KeepFirst(xs)| ==>
                          FirstPositions(xs)[k] < |xs| && KeepFirst(xs)[k] == xs[FirstPositions(xs)[k]]
  {
    hide FirstAt;
    if xs != [] {
      KeepFirstReadsFirstPositions(xs[..|xs| - 1]);
    }
  }

  /** What is kept is read off the first occurrences, all of them, left to right. */
  lemma KeepFirstIsAtFirstPositions(xs: seq<Candidate>)
    ensures var p, r := FirstPositions(xs), KeepFirst(xs);
            && |r| == |p|
            && (forall k :: 0 <= k < |p| ==> p[k] < |xs| && r[k] == xs[p[k]])
            && (forall j, k :: 0 <= j < k < |p| ==> p[j] < p[k])
            && (forall i: nat :: i in p <==> FirstAt(xs, i))
  {
    hide FirstAt, FirstPositions, KeepFirst;
    FirstPositionsIncrease(xs);
    KeepFirstReadsFirstPositions(xs);
    forall i: nat ensures i in FirstPositions(xs) <==> FirstAt(xs, i) {
      FirstPositionsAreTheFirsts(xs, i);
    }
  }

  /** Deduplication keeps every candidate once, in the order of first occurrence, and doing it again changes
      nothing. */
  lemma {:induction false} KeepFirstElements(xs: seq<Candidate>)
    ensures forall c :: c in KeepFirst(xs) <==> c in xs
    ensures forall j, k :: 0 <= j < k < |KeepFirst(xs)| ==> KeepFirst(xs)[j] != KeepFirst(xs)[k]
    ensures KeepFirst(KeepFirst(xs)) == KeepFirst(xs)
  {
    if xs != [] {
      var front := xs[..|xs| - 1];
      KeepFirstElements(front);
      assert xs == front + [xs[|xs| - 1]];
      if FirstAt(xs, |xs| - 1) {
        assert KeepFirst(xs)[..|KeepFirst(xs)| - 1] == KeepFirst(front);
      } else {
        assert KeepFirst(xs) == KeepFirst(front);
      }
    }
  }

  method DedupeCandidates(attempts: seq<Candidate>) returns (kept: seq<Candidate>)
    ensures kept == KeepFirst(attempts)
  {
    kept := [];
    var seen := {};
    for i := 0 to |attempts|
      invariant kept == KeepFirst(attempts[..i])
      invariant forall c :: c in seen <==> c in attempts[..i]
    {
      assert attempts[..i + 1][..i] == attempts[..i];
      if attempts[i] !in seen {
        seen := seen + {attempts[i]};
        kept := kept + [attempts[i]];
      }
    }
    assert attempts[..|attempts|] == attempts;
  }

  // ----- ordering SRV answers ------------------------------------------------------------------------

  datatype SrvCandidate = SrvCandidate(priority: nat, weight: nat, target: string, port: nat)

  /** Priority ascending, then weight descending. */
  predicate Before(a: SrvCandidate, b: SrvCandidate) {
    a.priority < b.priority || (a.priority == b.priority && b.weight < a.weight)
  }

  predicate Ordered(xs: seq<SrvCandidate>) {
    forall i, j :: 0 <= i < j < |xs| ==> !Before(xs[j], xs[i])
  }

  /** The answers that compare equal to a given priority and weight, in order. */
  function Ranked(xs: seq<SrvCandidate>, priority: nat, weight: nat): seq<SrvCandidate> {
    if xs == [] then []
    else
      var rest := Ranked(xs[1..], priority, weight);
      if xs[0].priority == priority && xs[0].weight == weight then [xs[0]] + rest else rest
  }

  function InsertSrv(x: SrvCandidate, xs: seq<SrvCandidate>): seq<SrvCandidate> {
    if xs == [] || !Before(xs[0], x) then [x] + xs else [xs[0]] + InsertSrv(x, xs[1..])
  }

  /** The stable sort of the answers. */
  function OrderSrvCandidates(xs: seq<SrvCandidate>): seq<SrvCandidate> {
    if xs == [] then [] else InsertSrv(xs[0], OrderSrvCandidates(xs[1..]))
  }

  lemma {:induction false} InsertSrvPermutes(x: SrvCandidate, xs: seq<SrvCandidate>)
    ensures multiset(InsertSrv(x, xs)) == multiset(xs) + multiset{x}
  {
    if xs != [] && Before(xs[0], x) {
      InsertSrvPermutes(x, xs[1..]);
      assert xs == [xs[0]] + xs[1..];
    }
  }

  lemma {:induction false} InsertSrvIsOrdered(x: SrvCandidate, xs: seq<SrvCandidate>)
    requires Ordered(xs)
    ensures Ordered(InsertSrv(x, xs))
  {
    if xs != [] && Before(xs[0], x) {
      var rest := InsertSrv(x, xs[1..]);
      InsertSrvIsOrdered(x, xs[1..]);
      InsertSrvPermutes(x, xs[1..]);
      forall j | 0 <= j < |rest| ensures !Before(rest[j], xs[0]) {
        assert rest[j] in multiset(rest);
        assert rest[j] == x || rest[j] in xs[1..];
      }
    }
  }

  lemma {:induction false} InsertSrvKeepsRanks(x: SrvCandidate, xs: seq<SrvCandidate>, p: nat, w: nat)
    ensures Ranked(InsertSrv(x, xs), p, w) == (if x.priority == p && x.weight == w then [x] else []) + Ranked(xs, p, w)
  {
    hide Before, Ranked;
    RankedCons(x, xs, p, w);
    if xs != [] && Before(xs[0], x) {
      var rest := InsertSrv(x, xs[1..]);
      InsertSrvKeepsRanks(x, xs[1..], p, w);
      RankedCons(xs[0], rest, p, w);
      RankedCons(xs[0], xs[1..], p, w);
      assert xs == [xs[0]] + xs[1..];
      if x.priority == p && x.weight == w && xs[0].priority == p && xs[0].weight == w {
        BeforeIsStrict(xs[0], x);
      }
    }
  }

  lemma RankedCons(x: SrvCandidate, xs: seq<SrvCandidate>, p: nat, w: nat)
    ensures Ranked([x] + xs, p, w) == (if x.priority == p && x.weight == w then [x] else []) + Ranked(xs, p, w)
  {
    assert ([x] + xs)[1..] == xs;
  }

  lemma BeforeIsStrict(a: SrvCandidate, b: SrvCandidate)
    requires Before(a, b)
    ensures a.priority != b.priority || a.weight != b.weight
  {
  }

  /** Ordering is a stable sorted permutation. */
  lemma {:induction false} OrderIsAStableSort(xs: seq<SrvCandidate>)
    ensures Ordered(OrderSrvCandidates(xs))
    ensures multiset(OrderSrvCandidates(xs)) == multiset(xs)
    ensures forall p, w :: Ranked(OrderSrvCandidates(xs), p, w) == Ranked(xs, p, w)
  {
    if xs != [] {
      OrderIsAStableSort(xs[1..]);
      var rest := OrderSrvCandidates(xs[1..]);
      InsertSrvPermutes(xs[0], rest);
      InsertSrvIsOrdered(xs[0], rest);
      assert xs == [xs[0]] + xs[1..];
      forall p, w ensures Ranked(OrderSrvCandidates(xs), p, w) == Ranked(xs, p, w) {
        InsertSrvKeepsRanks(xs[0], rest, p, w);
      }
    }
  }

  /** Lower priorities come first, and among equal ones higher weights. */
  lemma BetterAnswersComeFirst(xs: seq<SrvCandidate>, i: nat, j: nat)
    requires i < j < |OrderSrvCandidates(xs)|
    ensures var a, b := OrderSrvCandidates(xs)[i], OrderSrvCandidates(xs)[j];
            a.priority < b.priority || (a.priority == b.priority && a.weight >= b.weight)
  {
    hide OrderSrvCandidates, Before;
    OrderIsAStableSort(xs);
    NotBefore(OrderSrvCandidates(xs)[j], OrderSrvCandidates(xs)[i]);
  }

  lemma NotBefore(a: SrvCandidate, b: SrvCandidate)
    ensures !Before(a, b) ==> b.priority < a.priority || (b.priority == a.priority && b.weight >= a.weight)
  {
  }

  lemma {:induction false} RankedHead(xs: seq<SrvCandidate>, p: nat, w: nat)
    ensures Ranked(xs, p, w) != [] ==> exists i :: 0 <= i < |xs| && xs[i].priority == p && xs[i].weight == w
  {
    if xs != [] && !(xs[0].priority == p && xs[0].weight == w) {
      RankedHead(xs[1..], p, w);
      if Ranked(xs, p, w) != [] {
        var i :| 0 <= i < |xs[1..]| && xs[1..][i].priority == p && xs[1..][i].weight == w;
        assert xs[i + 1].priority == p && xs[i + 1].weight == w;
      }
    }
  }

  /** There is only one stable sort: any two sorted sequences that list equal-ranking answers alike are the same. */
  lemma {:induction false} StableSortIsUnique(xs: seq<SrvCandidate>, ys: seq<SrvCandidate>)
    requires Ordered(xs) && Ordered(ys)
    requires forall p, w :: Ranked(xs, p, w) == Ranked(ys, p, w)
    ensures xs == ys
  {
    assert xs == [] <==> ys == [] by {
      if xs != [] { assert Ranked(xs, xs[0].priority, xs[0].weight) != []; }
      if ys != [] { assert Ranked(ys, ys[0].priority, ys[0].weight) != []; }
    }
    if xs != [] {
      var x, y := xs[0], ys[0];
      assert Ranked(xs, x.priority, x.weight)[0] == x && Ranked(ys, y.priority, y.weight)[0] == y;
      RankedHead(xs, y.priority, y.weight);
      RankedHead(ys, x.priority, x.weight);
      assert !Before(x, y) && !Before(y, x);
      assert x == y;
      forall p, w ensures Ranked(xs[1..], p, w) == Ranked(ys[1..], p, w) {
        assert Ranked(xs, p, w) == Ranked(ys, p, w);
        var head := if x.priority == p && x.weight == w then [x] else [];
        assert Ranked(xs[1..], p, w) == Ranked(xs, p, w)[|head|..];
        assert Ranked(ys[1..], p, w) == Ranked(ys, p, w)[|head|..];
      }
      StableSortIsUnique(xs[1..], ys[1..]);
      assert xs == [x] + xs[1..] && ys == [y] + ys[1..];
    }
  }

  // ----- grouping ------------------------------------------------------------------------------------

  datatype Group = Group(port: nat, directTls: bool, addresses: seq<Address>)

  function Members(g: Group): seq<Candidate> {
    seq(|g.addresses|, i requires 0 <= i < |g.addresses| => Candidate(g.addresses[i], g.directTls))
  }

  function Flatten(groups: seq<Group>): seq<Candidate> {
    if groups == [] then [] else Flatten(groups[..|groups| - 1]) + Members(groups[|groups| - 1])
  }

  predicate Uniform(g: Group) {
    g.addresses != [] && forall i :: 0 <= i < |g.addresses| ==> g.addresses[i].port == g.port
  }

  predicate Fits(c: Candidate, g: Group) {
    c.address.port == g.port && c.directTls == g.directTls
  }

  predicate Alike(g: Group, h: Group) {
    g.port == h.port && g.directTls == h.directTls
  }

  /** Non-empty uniform runs, no two neighbours alike. */
  predicate Grouped(groups: seq<Group>) {
    && (forall i :: 0 <= i < |groups| ==> Uniform(groups[i]))
    && (forall i :: 0 < i < |groups| ==> !Alike(groups[i - 1], groups[i]))
  }

  lemma {:induction false} FlattenSnoc(groups: seq<Group>, g: Group)
    ensures Flatten(groups + [g]) == Flatten(groups) + Members(g)
  {
    hide Members;
    assert (groups + [g])[..|groups|] == groups;
  }

  lemma GroupedSnoc(groups: seq<Group>, g: Group)
    requires Grouped(groups) && Uniform(g) && (groups != [] ==> !Alike(groups[|groups| - 1], g))
    ensures Grouped(groups + [g])
  {
    hide Uniform, Alike;
  }

  lemma {:induction false} GrowLast(groups: seq<Group>, c: Candidate)
    requires Grouped(groups) && groups != [] && Fits(c, groups[|groups| - 1])
    ensures var last := groups[|groups| - 1];
            var grown := groups[|groups| - 1 := last.(addresses := last.addresses + [c.address])];
            Grouped(grown) && Flatten(grown) == Flatten(groups) + [c]
  {
    hide Flatten, Members;
    var front, last := groups[..|groups| - 1], groups[|groups| - 1];
    var longer := last.(addresses := last.addresses + [c.address]);
    assert groups == front + [last] && groups[|groups| - 1 := longer] == front + [longer];
    OneMoreMember(last, c);
    FlattenSnoc(front, last);
    FlattenSnoc(front, longer);
    GroupedSnoc(front, longer);
  }

  lemma OneMoreMember(g: Group, c: Candidate)
    requires Fits(c, g)
    ensures Members(g.(addresses := g.addresses + [c.address])) == Members(g) + [c]
  {
  }

  lemma {:induction false} OpenGroup(groups: seq<Group>, c: Candidate)
    requires Grouped(groups) && (groups != [] ==> !Fits(c, groups[|groups| - 1]))
    ensures var more := groups + [Group(c.address.port, c.directTls, [c.address])];
            Grouped(more) && Flatten(more) == Flatten(groups) + [c]
  {
    hide Flatten, Grouped, Members;
    var single := Group(c.address.port, c.directTls, [c.address]);
    SingleMember(c);
    FlattenSnoc(groups, single);
    GroupedSnoc(groups, single);
  }

  lemma SingleMember(c: Candidate)
    ensures Members(Group(c.address.port, c.directTls, [c.address])) == [c]
  {
  }

  /** Consecutive candidates with one port and TLS mode form a group; nothing is lost, added or reordered. */
  method GroupAttempts(attempts: seq<Candidate>) returns (groups: seq<Group>)
    ensures Flatten(groups) == attempts
    ensures Grouped(groups)
  {
    hide Members;
    groups := [];
    for i := 0 to |attempts|
      invariant Flatten(groups) == attempts[..i]
      invariant Grouped(groups)
    {
      var c := attempts[i];
      assert attempts[..i + 1] == attempts[..i] + [c];
      var n := |groups|;
      if n > 0 && groups[n - 1].port == c.address.port && groups[n - 1].directTls == c.directTls {
        var last := groups[n - 1];
        GrowLast(groups, c);
        groups := groups[n - 1 := last.(addresses := last.addresses + [c.address])];
      } else {
        OpenGroup(groups, c);
        groups := groups + [Group(c.address.port, c.directTls, [c.address])];
      }
    }
    assert attempts[..|attempts|] == attempts;
  }

  lemma {:induction false} FlattenFront(groups: seq<Group>)
    requires groups != []
    ensures Flatten(groups) == Members(groups[0]) + Flatten(groups[1..])
  {
    hide Members;
    var front, last := groups[..|groups| - 1], groups[|groups| - 1];
    if front == [] {
      assert groups[1..] == [];
    } else {
      FlattenFront(front);
      var rest := groups[1..];
      assert front[1..] == rest[..|rest| - 1] && rest[|rest| - 1] == last;
      assert Flatten(rest) == Flatten(front[1..]) + Members(last);
      assert Members(groups[0]) + (Flatten(front[1..]) + Members(last)) ==
             (Members(groups[0]) + Flatten(front[1..])) + Members(last);
    }
  }

  /** The candidate after a group, if there is one, does not fit it. */
  lemma NextDoesNotFit(groups: seq<Group>)
    requires Grouped(groups) && groups != []
    ensures var flat, n := Flatten(groups), |groups[0].addresses|;
            && n <= |flat| && flat[..n] == Members(groups[0]) && flat[n..] == Flatten(groups[1..])
            && (forall i :: 0 <= i < n ==> Fits(flat[i], groups[0]))
            && (|flat| > n ==> !Fits(flat[n], groups[0]))
  {
    FlattenFront(groups);
    if |groups| > 1 {
      FlattenFront(groups[1..]);
      assert !Alike(groups[0], groups[1]);
      assert groups[1..][0] == groups[1];
      var flat, n := Flatten(groups), |groups[0].addresses|;
      assert flat[n] == Members(groups[1])[0];
    }
  }

  /** The grouping of a candidate list is determined by those three properties. */
  lemma {:induction false} GroupingIsUnique(groups: seq<Group>, others: seq<Group>)
    requires Grouped(groups) && Grouped(others) && Flatten(groups) == Flatten(others)
    ensures groups == others
  {
    hide Flatten;
    EmptyFlatten(groups);
    EmptyFlatten(others);
    if groups != [] {
      var flat := Flatten(groups);
      var m, n := |groups[0].addresses|, |others[0].addresses|;
      NextDoesNotFit(groups);
      NextDoesNotFit(others);
      assert Fits(flat[0], groups[0]) && Fits(flat[0], others[0]);
      assert m == n;
      SameMembers(groups[0], others[0]);
      GroupingIsUnique(groups[1..], others[1..]);
      assert groups == [groups[0]] + groups[1..] && others == [others[0]] + others[1..];
    }
  }

  lemma EmptyFlatten(groups: seq<Group>)
    requires Grouped(groups)
    ensures groups == [] <==> Flatten(groups) == []
  {
    if groups != [] {
      FlattenFront(groups);
    }
  }

  lemma SameMembers(g: Group, h: Group)
    requires Alike(g, h) && Members(g) == Members(h)
    ensures g == h
  {
    forall i | 0 <= i < |g.addresses| && i < |h.addresses| ensures g.addresses[i] == h.addresses[i] {
      assert Members(g)[i] == Members(h)[i];
    }
    assert |Members(g)| == |g.addresses|;
    assert g.addresses == h.addresses;
  }

  // ----- trying ---------------------------------------------------------------------------------------

  datatype Strategy = DirectStrategy | ProxyStrategy(kind: ProxyKind)

  datatype ConnectFailure = ConnectFailure(detail: string, recoverable: bool, kind: DisconnectKind)

  type Attempt = Result<nat, ConnectFailure>

  function StrategyName(kind: ProxyKind): string {
    match kind
    case Socks5 => "socks5"
    case HttpConnect => "http_connect"
  }

  const NOT_CONFIGURED := " connect strategy " + "has no proxy " + "configuration"

  function StrategyConnectFailure(strategy: Strategy, proxyConfigured: bool): Option<ConnectFailure> {
    if strategy.ProxyStrategy? && !proxyConfigured then
      Some(ConnectFailure(StrategyName(strategy.kind) + NOT_CONFIGURED, true, Unknown))
    else None
  }

  const NO_CANDIDATES := ConnectFailure("no connection candidates", true, NetworkLost)

  predicate RecoverableFailure(a: Attempt) {
    a.Err? && a.error.recoverable
  }

  /** Races the addresses of one group; there is always a first one. */
  method TryGroup(group: Group, answer: Attempt) returns (r: Attempt)
    requires group.addresses != []
    ensures r == answer
  {
    var first := group.addresses[0];
    r := answer;
  }

  /** The groups are tried in order, `answers(k)` being what the k-th handshake race yields, until one succeeds or is
      refused for good. `tried` counts the groups tried. */
  method ConnectAttempt(strategy: Strategy, proxyConfigured: bool, attempts: seq<Candidate>, answers: nat -> Attempt)
    returns (r: Attempt, tried: nat, ghost groups: seq<Group>)
    ensures Grouped(groups) && Flatten(groups) == attempts && tried <= |groups|
    ensures strategy.ProxyStrategy? && !proxyConfigured ==>
              tried == 0 && r.Err? && r.error.recoverable && r.error.kind == Unknown
              && r.error.detail == (if strategy.kind == Socks5 then "socks5" else "http_connect") + NOT_CONFIGURED
    ensures strategy.DirectStrategy? || proxyConfigured ==>
              && (forall k :: 0 <= k < tried - 1 ==> RecoverableFailure(answers(k)))
              && (tried > 0 ==> r == answers(tried - 1))
              && (tried == 0 ==>
                    attempts == [] && r == Err(ConnectFailure("no connection candidates", true, NetworkLost)))
              && (RecoverableFailure(r) ==> tried == |groups|)
  {
    var all := GroupAttempts(attempts);
    groups := all;
    var misconfigured := StrategyConnectFailure(strategy, proxyConfigured);
    if misconfigured.Some? { return Err(misconfigured.value), 0, groups; }
    var lastFailure := NO_CANDIDATES;
    tried := 0;
    while tried < |all|
      invariant 0 <= tried <= |all|
      invariant forall k :: 0 <= k < tried ==> RecoverableFailure(answers(k))
      invariant Err(lastFailure) == if tried == 0 then Err(NO_CANDIDATES) else answers(tried - 1)
    {
      var answer := TryGroup(all[tried], answers(tried));
      tried := tried + 1;
      if answer.Ok? { return answer, tried, groups; }
      if !answer.error.recoverable { return answer, tried, groups; }
      lastFailure := answer.error;
    }
    r := Err(lastFailure);
  }
}

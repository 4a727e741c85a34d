/** The comparison of versions is a total preorder, and "newer" a strict partial order. */
module VersionOrder {
  import opened Wrappers
  import opened Versions

  /** Three comparisons fit together: at-most is transitive, and a tie only where both are ties. */
  predicate Chains(ab: int, bc: int, ac: int) {
    ab <= 0 && bc <= 0 ==> ac <= 0 && (ac == 0 <==> ab == 0 && bc == 0)
  }

  lemma ThenChains(ab: int, bc: int, ac: int, ab2: int, bc2: int, ac2: int)
    requires Chains(ab, bc, ac)
    requires ab == 0 && bc == 0 ==> Chains(ab2, bc2, ac2)
    ensures Chains(Then(ab, ab2), Then(bc, bc2), Then(ac, ac2))
  {
  }

  lemma {:induction false} CoreChains(a: seq<nat>, b: seq<nat>, c: seq<nat>, i: nat)
    ensures Chains(CoreOrder(a, b, i), CoreOrder(b, c, i), CoreOrder(a, c, i))
    decreases |a| + |b| + |c| - i
  {
    if i < |a| || i < |b| || i < |c| {
      CoreChains(a, b, c, i + 1);
      PastTheEnd(a, b, i);
      PastTheEnd(b, c, i);
      PastTheEnd(a, c, i);
      ThenChains(Cmp(At(a, i), At(b, i)), Cmp(At(b, i), At(c, i)), Cmp(At(a, i), At(c, i)),
                 CoreOrder(a, b, i + 1), CoreOrder(b, c, i + 1), CoreOrder(a, c, i + 1));
    }
  }

  /** Missing parts count as 0, so the recursion equation also holds past both ends. */
  lemma PastTheEnd(a: seq<nat>, b: seq<nat>, i: nat)
    ensures CoreOrder(a, b, i) == Then(Cmp(At(a, i), At(b, i)), CoreOrder(a, b, i + 1))
  {
  }

  lemma {:induction false} CoreFlips(a: seq<nat>, b: seq<nat>, i: nat)
    ensures CoreOrder(b, a, i) == -CoreOrder(a, b, i)
    decreases |a| + |b| - i
  {
    if i < |a| || i < |b| {
      CoreFlips(a, b, i + 1);
    }
  }

  lemma {:induction false} StringChains(x: string, y: string, z: string)
    ensures Chains(StringOrder(x, y), StringOrder(y, z), StringOrder(x, z))
  {
    if x != "" && y != "" && z != "" {
      StringChains(x[1..], y[1..], z[1..]);
    }
  }

  lemma {:induction false} StringFlips(x: string, y: string)
    ensures StringOrder(y, x) == -StringOrder(x, y)
    ensures StringOrder(x, y) == 0 <==> x == y
  {
    if x != "" && y != "" {
      StringFlips(x[1..], y[1..]);
      assert x == [x[0]] + x[1..] && y == [y[0]] + y[1..];
    }
  }

  lemma IdChains(x: string, y: string, z: string)
    ensures Chains(IdOrder(x, y), IdOrder(y, z), IdOrder(x, z))
  {
    StringChains(x, y, z);
  }

  lemma IdFlips(x: string, y: string)
    ensures IdOrder(y, x) == -IdOrder(x, y)
  {
    StringFlips(x, y);
  }

  lemma {:induction false} PreChains(p: seq<string>, q: seq<string>, r: seq<string>, i: nat)
    requires i <= |p| && i <= |q| && i <= |r|
    ensures Chains(PreOrder(p, q, i), PreOrder(q, r, i), PreOrder(p, r, i))
    decreases |p| - i
  {
    if i < |p| && i < |q| && i < |r| {
      IdChains(p[i], q[i], r[i]);
      PreChains(p, q, r, i + 1);
      ThenChains(IdOrder(p[i], q[i]), IdOrder(q[i], r[i]), IdOrder(p[i], r[i]),
                 PreOrder(p, q, i + 1), PreOrder(q, r, i + 1), PreOrder(p, r, i + 1));
    }
  }

  lemma {:induction false} PreFlips(p: seq<string>, q: seq<string>, i: nat)
    ensures PreOrder(q, p, i) == -PreOrder(p, q, i)
    decreases |p| - i
  {
    if i < |p| && i < |q| {
      IdFlips(p[i], q[i]);
      PreFlips(p, q, i + 1);
    }
  }

  lemma ReleaseChains(a: Option<seq<string>>, b: Option<seq<string>>, c: Option<seq<string>>)
    ensures Chains(ReleaseOrder(a, b), ReleaseOrder(b, c), ReleaseOrder(a, c))
  {
  }

  /** Swapping the sides swaps the sign; in particular every version equals itself. */
  lemma OrderFlips(a: Version, b: Version)
    ensures Order(b, a) == -Order(a, b)
    ensures Order(a, a) == 0
  {
    CoreFlips(a.core, b.core, 0);
    PreFlips(Ids(a.pre), Ids(b.pre), 0);
    CoreFlips(a.core, a.core, 0);
    PreFlips(Ids(a.pre), Ids(a.pre), 0);
  }

  lemma AheadChains(a: nat, b: nat, c: nat)
    ensures Chains(Cmp(a, b), Cmp(b, c), Cmp(a, c))
  {
  }

  /** Precedence is transitive, across cores of any lengths and identifiers of either kind. */
  lemma OrderChains(a: Version, b: Version, c: Version)
    ensures Chains(Order(a, b), Order(b, c), Order(a, c))
  {
    var p, q, r := Ids(a.pre), Ids(b.pre), Ids(c.pre);
    CoreChains(a.core, b.core, c.core, 0);
    ReleaseChains(a.pre, b.pre, c.pre);
    PreChains(p, q, r, 0);
    AheadChains(a.ahead, b.ahead, c.ahead);
    var (ab1, bc1, ac1) := (Cmp(a.ahead, b.ahead), Cmp(b.ahead, c.ahead), Cmp(a.ahead, c.ahead));
    var (ab2, bc2, ac2) :=
      (Then(PreOrder(p, q, 0), ab1), Then(PreOrder(q, r, 0), bc1), Then(PreOrder(p, r, 0), ac1));
    ThenChains(PreOrder(p, q, 0), PreOrder(q, r, 0), PreOrder(p, r, 0), ab1, bc1, ac1);
    var (ab3, bc3, ac3) :=
      (Then(ReleaseOrder(a.pre, b.pre), ab2), Then(ReleaseOrder(b.pre, c.pre), bc2),
       Then(ReleaseOrder(a.pre, c.pre), ac2));
    ThenChains(ReleaseOrder(a.pre, b.pre), ReleaseOrder(b.pre, c.pre), ReleaseOrder(a.pre, c.pre), ab2, bc2, ac2);
    ThenChains(CoreOrder(a.core, b.core, 0), CoreOrder(b.core, c.core, 0), CoreOrder(a.core, c.core, 0),
               ab3, bc3, ac3);
  }

  /** "Newer" is a strict partial order on version strings. */
  lemma NewerIsStrict(x: string, y: string, z: string)
    ensures !Newer(x, x)
    ensures Newer(x, y) ==> !Newer(y, x)
    ensures Newer(x, y) && Newer(y, z) ==> Newer(x, z)
  {
    var a, b, c := Parsed(x), Parsed(y), Parsed(z);
    OrderFlips(a, b);
    OrderFlips(b, c);
    OrderFlips(a, c);
    OrderChains(c, b, a);
  }

  /** The candidates a string ties with are all ordered alike against any third. */
  lemma TiesAreCongruent(a: Version, b: Version, c: Version)
    requires Order(a, b) == 0
    ensures Order(a, c) < 0 <==> Order(b, c) < 0
    ensures Order(a, c) == 0 <==> Order(b, c) == 0
  {
    OrderFlips(a, b);
    OrderFlips(a, c);
    OrderFlips(b, c);
    OrderChains(a, b, c);
    OrderChains(b, a, c);
    OrderChains(c, a, b);
    OrderChains(c, b, a);
  }
}

/** The Myers line diff of extension/src/ai/lineDiff.ts: edit scripts, their
    least cost, the greedy search over diagonals and its back-walk. */
module LineDiff {
  import opened Arithmetic

  datatype Kind = Keep | Delete | Insert

  datatype Op<T> = Op(kind: Kind, line: T)

  // The search goes no further than this: beyond it the middle is replaced.
  const MAX_EDIT_DISTANCE := 1000

  // ----- edit scripts -------------------------------------------------------

  // The lines a script consumes, in order: everything but its insertions.
  function OldSide<T>(ops: seq<Op<T>>): seq<T> {
    if ops == [] then []
    else if ops[0].kind == Insert then OldSide(ops[1..])
    else [ops[0].line] + OldSide(ops[1..])
  }

  // The lines a script produces, in order: everything but its deletions.
  function NewSide<T>(ops: seq<Op<T>>): seq<T> {
    if ops == [] then []
    else if ops[0].kind == Delete then NewSide(ops[1..])
    else [ops[0].line] + NewSide(ops[1..])
  }

  // Number of insertions and deletions.
  function Cost<T>(ops: seq<Op<T>>): nat {
    if ops == [] then 0
    else (if ops[0].kind == Keep then 0 else 1) + Cost(ops[1..])
  }

  ghost predicate IsScript<T>(ops: seq<Op<T>>, a: seq<T>, b: seq<T>) {
    OldSide(ops) == a && NewSide(ops) == b
  }

  lemma OldFirst<T>(op: Op<T>, ops: seq<Op<T>>)
    ensures OldSide([op] + ops) == (if op.kind == Insert then [] else [op.line]) + OldSide(ops)
  {
    assert ([op] + ops)[1..] == ops;
  }

  lemma Regroup<X>(a: seq<X>, b: seq<X>, c: seq<X>)
    ensures a + (b + c) == a + b + c
  {
  }

  lemma {:induction false} OldAppend<T>(p: seq<Op<T>>, q: seq<Op<T>>)
    ensures OldSide(p + q) == OldSide(p) + OldSide(q)
  {
    if p == [] {
      assert p + q == q;
    } else {
      OldAppend(p[1..], q);
      OldFirst(p[0], p[1..]);
      OldFirst(p[0], p[1..] + q);
      hide *;
      assert p == [p[0]] + p[1..] && p + q == [p[0]] + (p[1..] + q);
      Regroup(if p[0].kind == Insert then [] else [p[0].line], OldSide(p[1..]), OldSide(q));
    }
  }

  lemma NewFirst<T>(op: Op<T>, ops: seq<Op<T>>)
    ensures NewSide([op] + ops) == (if op.kind == Delete then [] else [op.line]) + NewSide(ops)
  {
    assert ([op] + ops)[1..] == ops;
  }

  lemma {:induction false} NewAppend<T>(p: seq<Op<T>>, q: seq<Op<T>>)
    ensures NewSide(p + q) == NewSide(p) + NewSide(q)
  {
    if p == [] {
      assert p + q == q;
    } else {
      NewAppend(p[1..], q);
      NewFirst(p[0], p[1..]);
      NewFirst(p[0], p[1..] + q);
      hide *;
      assert p == [p[0]] + p[1..] && p + q == [p[0]] + (p[1..] + q);
      Regroup(if p[0].kind == Delete then [] else [p[0].line], NewSide(p[1..]), NewSide(q));
    }
  }

  lemma {:induction false} CostAppend<T>(p: seq<Op<T>>, q: seq<Op<T>>)
    ensures Cost(p + q) == Cost(p) + Cost(q)
  {
    if p == [] {
      assert p + q == q;
    } else {
      CostAppend(p[1..], q);
      assert (p + q)[1..] == p[1..] + q;
      assert (p + q)[0] == p[0];
    }
  }

  lemma SidesAppend<T>(p: seq<Op<T>>, q: seq<Op<T>>)
    ensures OldSide(p + q) == OldSide(p) + OldSide(q)
    ensures NewSide(p + q) == NewSide(p) + NewSide(q)
    ensures Cost(p + q) == Cost(p) + Cost(q)
  {
    hide OldSide, NewSide, Cost;
    OldAppend(p, q);
    NewAppend(p, q);
    CostAppend(p, q);
  }

  // One operation of the given kind for each line.
  function OpsOf<T>(kind: Kind, lines: seq<T>): (ops: seq<Op<T>>)
    ensures |ops| == |lines|
    ensures forall i :: 0 <= i < |lines| ==> ops[i] == Op(kind, lines[i])
  {
    seq(|lines|, i requires 0 <= i < |lines| => Op(kind, lines[i]))
  }

  lemma {:induction false} SidesOfOps<T>(kind: Kind, lines: seq<T>)
    ensures OldSide(OpsOf(kind, lines)) == if kind == Insert then [] else lines
    ensures NewSide(OpsOf(kind, lines)) == if kind == Delete then [] else lines
    ensures Cost(OpsOf(kind, lines)) == if kind == Keep then 0 else |lines|
  {
    if lines != [] {
      SidesOfOps(kind, lines[1..]);
      assert OpsOf(kind, lines)[1..] == OpsOf(kind, lines[1..]);
      assert [lines[0]] + lines[1..] == lines;
    }
  }

  function Reversed<T>(s: seq<T>): (r: seq<T>)
    ensures |r| == |s|
  {
    if s == [] then [] else [s[|s| - 1]] + Reversed(s[..|s| - 1])
  }

  lemma ReversedPush<T>(s: seq<T>, e: T)
    ensures Reversed(s + [e]) == [e] + Reversed(s)
  {
    assert (s + [e])[..|s|] == s;
  }

  // ----- edit distance ------------------------------------------------------

  predicate Match<T(==)>(a: seq<T>, b: seq<T>, x: nat, y: nat) {
    x < |a| && y < |b| && a[x] == b[y]
  }

  // Least number of edits from (0, 0) to (x, y). Points past the end of
  // either text are on the grid too, where nothing matches: the search runs
  // there before its stop test fires.
  ghost function Dist<T>(a: seq<T>, b: seq<T>, x: nat, y: nat): nat
    decreases x + y
  {
    if x == 0 then y
    else if y == 0 then x
    else
      var step := 1 + Min(Dist(a, b, x - 1, y), Dist(a, b, x, y - 1));
      if Match(a, b, x - 1, y - 1) then Min(step, Dist(a, b, x - 1, y - 1)) else step
  }

  ghost function Distance<T>(a: seq<T>, b: seq<T>): nat {
    Dist(a, b, |a|, |b|)
  }

  // Neighbouring points differ by at most one edit.
  lemma {:induction false} Lipschitz<T>(a: seq<T>, b: seq<T>, x: nat, y: nat)
    ensures Dist(a, b, x + 1, y) <= Dist(a, b, x, y) + 1
    ensures Dist(a, b, x, y + 1) <= Dist(a, b, x, y) + 1
    ensures Dist(a, b, x, y) <= Dist(a, b, x + 1, y) + 1
    ensures Dist(a, b, x, y) <= Dist(a, b, x, y + 1) + 1
    decreases x + y
  {
    if y > 0 { Lipschitz(a, b, x, y - 1); }
    if x > 0 { Lipschitz(a, b, x - 1, y); }
  }

  lemma Diagonal<T>(a: seq<T>, b: seq<T>, x: nat, y: nat)
    ensures Dist(a, b, x, y) <= Dist(a, b, x + 1, y + 1)
    ensures Match(a, b, x, y) ==> Dist(a, b, x + 1, y + 1) == Dist(a, b, x, y)
  {
    Lipschitz(a, b, x, y);
    Lipschitz(a, b, x + 1, y);
    Lipschitz(a, b, x, y + 1);
  }

  lemma {:induction false} DiagonalRun<T>(a: seq<T>, b: seq<T>, x: nat, y: nat, steps: nat)
    ensures Dist(a, b, x, y) <= Dist(a, b, x + steps, y + steps)
  {
    if steps > 0 {
      hide Dist;
      DiagonalRun(a, b, x, y, steps - 1);
      Diagonal(a, b, x + steps - 1, y + steps - 1);
    }
  }

  lemma {:induction false} OffDiagonal<T>(a: seq<T>, b: seq<T>, x: nat, y: nat)
    ensures Dist(a, b, x, y) >= x - y
    ensures Dist(a, b, x, y) >= y - x
    ensures Dist(a, b, x, y) <= x + y
    decreases x + y
  {
    if x > 0 && y > 0 {
      OffDiagonal(a, b, x - 1, y);
      OffDiagonal(a, b, x, y - 1);
      OffDiagonal(a, b, x - 1, y - 1);
    }
  }

  predicate Even(n: int) { n % 2 == 0 }

  lemma EvenNext(n: int)
    ensures Even(n + 1) == !Even(n)
  {
  }

  lemma ParityStep(d: int, left: int, up: int, back: int, n: int)
    requires Even(left) == Even(n - 1) && Even(up) == Even(n - 1) && Even(back) == Even(n - 2)
    requires d == 1 + left || d == 1 + up || d == back
    ensures Even(d) == Even(n)
  {
    EvenNext(left);
    EvenNext(up);
    EvenNext(n - 1);
    EvenNext(n - 2);
  }

  // A distance is one of the three it is taken from.
  lemma DistIsOneOf<T>(a: seq<T>, b: seq<T>, x: nat, y: nat)
    requires x > 0 && y > 0
    ensures var d := Dist(a, b, x, y);
      d == 1 + Dist(a, b, x - 1, y) || d == 1 + Dist(a, b, x, y - 1) || d == Dist(a, b, x - 1, y - 1)
  {
    hide Match;
  }

  lemma EdgeParity<T>(a: seq<T>, b: seq<T>, x: nat, y: nat)
    requires x == 0 || y == 0
    ensures Even(Dist(a, b, x, y)) == Even(x + y)
  {
    hide Even;
  }

  lemma {:induction false} Parity<T>(a: seq<T>, b: seq<T>, x: nat, y: nat)
    ensures Even(Dist(a, b, x, y)) == Even(x + y)
    decreases x + y
  {
    hide *;
    if x == 0 || y == 0 {
      EdgeParity(a, b, x, y);
    } else {
      DistIsOneOf(a, b, x, y);
      Parity(a, b, x - 1, y);
      Parity(a, b, x, y - 1);
      Parity(a, b, x - 1, y - 1);
      ParityStep(Dist(a, b, x, y), Dist(a, b, x - 1, y), Dist(a, b, x, y - 1), Dist(a, b, x - 1, y - 1), x + y);
    }
  }

  lemma {:induction false} PastOldEnd<T>(a: seq<T>, b: seq<T>, x: nat, y: nat)
    requires x >= |a|
    ensures Dist(a, b, x + 1, y) == Dist(a, b, x, y) + 1
    decreases y
  {
    if y > 0 {
      PastOldEnd(a, b, x, y - 1);
      Lipschitz(a, b, x, y - 1);
    }
  }

  lemma {:induction false} PastNewEnd<T>(a: seq<T>, b: seq<T>, x: nat, y: nat)
    requires y >= |b|
    ensures Dist(a, b, x, y + 1) == Dist(a, b, x, y) + 1
    decreases x
  {
    if x > 0 {
      PastNewEnd(a, b, x - 1, y);
      Lipschitz(a, b, x - 1, y);
    }
  }

  // Beyond both ends every step costs one edit.
  lemma {:induction false} OffGrid<T>(a: seq<T>, b: seq<T>, x: nat, y: nat)
    requires x >= |a| && y >= |b|
    ensures Dist(a, b, x, y) == Distance(a, b) + (x - |a|) + (y - |b|)
    decreases x + y
  {
    if x > |a| {
      OffGrid(a, b, x - 1, y);
      PastOldEnd(a, b, x - 1, y);
    } else if y > |b| {
      OffGrid(a, b, x, y - 1);
      PastNewEnd(a, b, x, y - 1);
    }
  }

  // No script between the prefixes is cheaper than their distance.
  // What a script's last operation leaves to the rest.
  lemma LastOp<T>(front: seq<Op<T>>, last: Op<T>, a: seq<T>, b: seq<T>, x: nat, y: nat)
    requires x <= |a| && y <= |b| && IsScript(front + [last], a[..x], b[..y])
    ensures Cost(front + [last]) == Cost(front) + if last.kind == Keep then 0 else 1
    ensures last.kind != Insert ==> x > 0 && a[x - 1] == last.line
    ensures last.kind != Delete ==> y > 0 && b[y - 1] == last.line
    ensures IsScript(front, a[..if last.kind == Insert then x else x - 1], b[..if last.kind == Delete then y else y - 1])
  {
    SidesAppend(front, [last]);
    OldFirst(last, []);
    NewFirst(last, []);
    assert [last] + [] == [last] && Cost([last]) == if last.kind == Keep then 0 else 1;
    hide OldSide, NewSide, Cost;
    OneShorter(OldSide(front), if last.kind == Insert then [] else [last.line], a, x);
    OneShorter(NewSide(front), if last.kind == Delete then [] else [last.line], b, y);
  }

  lemma OneShorter<T>(s: seq<T>, last: seq<T>, a: seq<T>, x: nat)
    requires x <= |a| && s + last == a[..x] && |last| <= 1
    ensures |last| <= x && s == a[..x - |last|] && (last != [] ==> a[x - 1] == last[0])
  {
    assert (s + last)[..|s|] == s;
    assert last != [] ==> (s + last)[|s|] == last[0];
  }

  lemma {:induction false} ScriptCostsDistance<T>(ops: seq<Op<T>>, a: seq<T>, b: seq<T>, x: nat, y: nat)
    requires x <= |a| && y <= |b|
    requires IsScript(ops, a[..x], b[..y])
    ensures Dist(a, b, x, y) <= Cost(ops)
    decreases |ops|
  {
    if ops != [] {
      var front, last := ops[..|ops| - 1], ops[|ops| - 1];
      assert ops == front + [last];
      LastOp(front, last, a, b, x, y);
      hide IsScript, Cost, Dist;
      var px := if last.kind == Insert then x else x - 1;
      var py := if last.kind == Delete then y else y - 1;
      ScriptCostsDistance(front, a, b, px, py);
      if last.kind == Keep {
        Diagonal(a, b, px, py);
      } else {
        Lipschitz(a, b, px, py);
      }
    }
  }

  lemma DistanceIsLeast<T>(ops: seq<Op<T>>, a: seq<T>, b: seq<T>)
    requires IsScript(ops, a, b)
    ensures Distance(a, b) <= Cost(ops)
  {
    assert a[..|a|] == a && b[..|b|] == b;
    ScriptCostsDistance(ops, a, b, |a|, |b|);
  }

  // Trimming a common last line loses nothing, nor does a common first line.
  // The distance of a point inside the grid, and on its edges.
  lemma DistAt<T>(a: seq<T>, b: seq<T>, x: nat, y: nat)
    requires x > 0 && y > 0
    ensures var step := 1 + Min(Dist(a, b, x - 1, y), Dist(a, b, x, y - 1));
      Dist(a, b, x, y) == if Match(a, b, x - 1, y - 1) then Min(step, Dist(a, b, x - 1, y - 1)) else step
  {
    hide Match;
  }

  lemma DistEdge<T>(a: seq<T>, b: seq<T>, x: nat)
    ensures Dist(a, b, x, 0) == x && Dist(a, b, 0, x) == x
  {
  }

  lemma MatchOn<T>(c: T, a: seq<T>, b: seq<T>, x: nat, y: nat)
    ensures Match([c] + a, [c] + b, 0, 0) && Match([c] + a, [c] + b, x + 1, y + 1) == Match(a, b, x, y)
  {
  }

  lemma {:induction false} TrimFirst<T>(c: T, a: seq<T>, b: seq<T>, x: nat, y: nat)
    ensures Dist([c] + a, [c] + b, x + 1, y + 1) == Dist(a, b, x, y)
    decreases x + y
  {
    hide Dist, Match;
    var p, q := [c] + a, [c] + b;
    DistAt(p, q, x + 1, y + 1);
    if x == 0 || y == 0 {
      DistEdge(a, b, x + y);
      DistEdge(p, q, x + 1);
      DistEdge(p, q, y + 1);
      DistEdge(p, q, 0);
      OffDiagonal(p, q, x + 1, y + 1);
      MatchOn(c, a, b, 0, 0);
      if x > 0 {
        TrimFirst(c, a, b, x - 1, y);
        DistEdge(a, b, x - 1);
      } else if y > 0 {
        TrimFirst(c, a, b, x, y - 1);
        DistEdge(a, b, y - 1);
      }
    } else {
      TrimFirst(c, a, b, x - 1, y);
      TrimFirst(c, a, b, x, y - 1);
      TrimFirst(c, a, b, x - 1, y - 1);
      DistAt(a, b, x, y);
      MatchOn(c, a, b, x - 1, y - 1);
    }
  }

  // Only the lines before (x, y) matter.
  lemma {:induction false} DistPrefix<T>(a: seq<T>, b: seq<T>, c: seq<T>, e: seq<T>, x: nat, y: nat)
    requires x <= |a| && y <= |b|
    ensures Dist(a + c, b + e, x, y) == Dist(a, b, x, y)
    decreases x + y
  {
    if x > 0 && y > 0 {
      DistPrefix(a, b, c, e, x - 1, y);
      DistPrefix(a, b, c, e, x, y - 1);
      DistPrefix(a, b, c, e, x - 1, y - 1);
    }
  }

  lemma {:induction false} TrimPrefix<T>(p: seq<T>, a: seq<T>, b: seq<T>)
    ensures Distance(p + a, p + b) == Distance(a, b)
  {
    if p == [] {
      assert p + a == a && p + b == b;
    } else {
      TrimPrefix(p[1..], a, b);
      TrimFirst(p[0], p[1..] + a, p[1..] + b, |p[1..] + a|, |p[1..] + b|);
      assert [p[0]] + (p[1..] + a) == p + a;
      assert [p[0]] + (p[1..] + b) == p + b;
    }
  }

  lemma {:induction false} TrimSuffix<T>(a: seq<T>, b: seq<T>, s: seq<T>)
    ensures Distance(a + s, b + s) == Distance(a, b)
  {
    if s == [] {
      assert a + s == a && b + s == b;
    } else {
      var f, l := s[..|s| - 1], s[|s| - 1];
      TrimSuffix(a, b, f);
      assert s == f + [l];
      assert a + s == (a + f) + [l] && b + s == (b + f) + [l];
      DistPrefix(a + f, b + f, [l], [l], |a + f|, |b + f|);
      assert Match(a + s, b + s, |a + f|, |b + f|);
      Diagonal(a + s, b + s, |a + f|, |b + f|);
    }
  }

  // ----- furthest reaching points -------------------------------------------

  // x is the last point of diagonal k (where y == x - k) within d edits.
  ghost predicate Furthest<T>(a: seq<T>, b: seq<T>, d: int, k: int, x: int) {
    0 <= x && k <= x && Dist(a, b, x, x - k) <= d < Dist(a, b, x + 1, x - k + 1)
  }

  // A point within d edits is at or before the furthest one, and conversely.
  lemma FurthestBounds<T>(a: seq<T>, b: seq<T>, d: int, k: int, x: int, p: int)
    requires Furthest(a, b, d, k, x) && 0 <= p && k <= p
    ensures Dist(a, b, p, p - k) <= d <==> p <= x
  {
    hide Dist;
    if p <= x {
      DiagonalRun(a, b, p, p - k, x - p);
    } else {
      DiagonalRun(a, b, x + 1, x + 1 - k, p - x - 1);
    }
  }

  // The furthest point never passes the last old line by more than d, so for
  // texts under 2^31 - 1001 lines the 32-bit array holds it.
  lemma FurthestFits<T>(a: seq<T>, b: seq<T>, d: int, k: int, x: int)
    requires Furthest(a, b, d, k, x)
    ensures x <= |a| + d
  {
    if x > |a| {
      PastEndCost(a, b, x, x - k);
    }
  }

  lemma {:induction false} PastEndCost<T>(a: seq<T>, b: seq<T>, x: nat, y: nat)
    requires x >= |a|
    ensures Dist(a, b, x, y) >= x - |a|
  {
    if x > |a| {
      PastEndCost(a, b, x - 1, y);
      PastOldEnd(a, b, x - 1, y);
    }
  }

  // Round d computes the diagonals of its own parity.
  predicate Visits(d: int, k: int) {
    -d <= k <= d && Even(k + d)
  }

  lemma Neighbours(d: int, k: int)
    requires Visits(d, k)
    ensures k != -d ==> Visits(d - 1, k - 1)
    ensures k != d ==> Visits(d - 1, k + 1)
  {
    EvenNext(k + d - 1);
    EvenNext(k + d - 2);
    if k == d - 1 { EvenNext(2 * d - 2); }
  }

  // What a round holds once the diagonals before k are done: the furthest
  // point of each, none of them past both ends. Diagonal k is at offset + k.
  ghost predicate FrontBefore<T>(a: seq<T>, b: seq<T>, d: int, v: seq<int>, offset: int, k: int) {
    d < offset && |v| > 2 * offset
    && forall j :: Visits(d, j) && j < k ==>
         Furthest(a, b, d, j, v[offset + j]) && !AtEnd(a, b, j, v[offset + j])
  }

  // The search's stop test at point x of diagonal k.
  predicate AtEnd<T>(a: seq<T>, b: seq<T>, k: int, x: int) {
    x >= |a| && x - k >= |b|
  }

  // The array after round d: furthest points on the diagonals of its parity.
  ghost predicate Front<T>(a: seq<T>, b: seq<T>, d: int, v: seq<int>, offset: int) {
    FrontBefore(a, b, d, v, offset, d + 1)
  }

  lemma FrontStep<T>(a: seq<T>, b: seq<T>, d: int, v: seq<int>, offset: int, k: int, x: int)
    requires FrontBefore(a, b, d, v, offset, k) && Visits(d, k)
    requires Furthest(a, b, d, k, x) && !AtEnd(a, b, k, x)
    ensures FrontBefore(a, b, d, v[offset + k := x], offset, k + 2)
    ensures Even(k + 2 + d)
  {
    EvenNext(k + d);
    EvenNext(k + d + 1);
    forall j | Visits(d, j) && j < k + 2
      ensures j <= k
    {
    }
  }

  // Whether round d enters diagonal k by moving down from diagonal k + 1.
  predicate EntersDown(v: seq<int>, offset: int, d: int, k: int)
    requires 0 <= d < offset && |v| > 2 * offset && -d <= k <= d
  {
    k == -d || (k != d && v[offset + k - 1] < v[offset + k + 1])
  }

  function EntryX(v: seq<int>, offset: int, d: int, k: int): int
    requires 0 <= d < offset && |v| > 2 * offset && -d <= k <= d
  {
    if EntersDown(v, offset, d, k) then v[offset + k + 1] else v[offset + k - 1] + 1
  }

  // What round d starts from: round d - 1, or the zeroed array.
  ghost predicate Ready<T>(a: seq<T>, b: seq<T>, d: int, v: seq<int>, offset: int) {
    0 <= d < offset && |v| > 2 * offset
    && (if d == 0 then v[offset + 1] == 0 else Front(a, b, d - 1, v, offset))
  }

  // The entry point is within d edits, and its predecessor within d - 1.
  lemma EntryReached<T>(a: seq<T>, b: seq<T>, d: int, v: seq<int>, offset: int, k: int)
    requires Ready(a, b, d, v, offset) && Visits(d, k)
    ensures var x := EntryX(v, offset, d, k); 0 <= x && k <= x && Dist(a, b, x, x - k) <= d
    ensures d > 0 ==>
      var pk := if EntersDown(v, offset, d, k) then k + 1 else k - 1;
      Visits(d - 1, pk) && Furthest(a, b, d - 1, pk, v[offset + pk])
  {
    if d > 0 {
      Neighbours(d, k);
      if EntersDown(v, offset, d, k) {
        OneStep(a, b, d - 1, k + 1, v[offset + k + 1]);
      } else {
        OneStep(a, b, d - 1, k - 1, v[offset + k - 1]);
      }
      hide Dist;
    }
  }

  lemma OneStep<T>(a: seq<T>, b: seq<T>, d: int, k: int, x: int)
    requires Furthest(a, b, d, k, x)
    ensures Dist(a, b, x, x - k + 1) <= d + 1
    ensures Dist(a, b, x + 1, x - k) <= d + 1
  {
    Lipschitz(a, b, x, x - k);
  }

  // From the entry point on, a mismatch leaves the diagonal's next point out
  // of reach: both its neighbours lie past the previous round's furthest.
  lemma Wall<T>(a: seq<T>, b: seq<T>, d: int, v: seq<int>, offset: int, k: int, x: int)
    requires Ready(a, b, d, v, offset) && Visits(d, k)
    requires EntryX(v, offset, d, k) <= x && 0 <= x && k <= x
    requires !Match(a, b, x, x - k)
    ensures d < Dist(a, b, x + 1, x - k + 1)
  {
    if d > 0 {
      BesideWall(a, b, d, v, offset, k, x);
    } else {
      OffDiagonal(a, b, x, x + 1);
    }
  }

  lemma BesideWall<T>(a: seq<T>, b: seq<T>, d: int, v: seq<int>, offset: int, k: int, x: int)
    requires d > 0 && Ready(a, b, d, v, offset) && Visits(d, k)
    requires EntryX(v, offset, d, k) <= x && 0 <= x && k <= x
    ensures Dist(a, b, x, x - k + 1) >= d
    ensures Dist(a, b, x + 1, x - k) >= d
  {
    hide Dist;
    Neighbours(d, k);
    if k == -d {
      OffDiagonal(a, b, x, x - k + 1);
    } else {
      assert Furthest(a, b, d - 1, k - 1, v[offset + k - 1]);
      FurthestBounds(a, b, d - 1, k - 1, v[offset + k - 1], x);
    }
    if k == d {
      OffDiagonal(a, b, x + 1, x - k);
    } else {
      assert Furthest(a, b, d - 1, k + 1, v[offset + k + 1]);
      FurthestBounds(a, b, d - 1, k + 1, v[offset + k + 1], x + 1);
    }
  }

  // Between the entry point and the furthest point everything matches.
  lemma SlideMatches<T>(a: seq<T>, b: seq<T>, d: int, v: seq<int>, offset: int, k: int, x: int, p: int)
    requires Ready(a, b, d, v, offset) && Visits(d, k)
    requires Furthest(a, b, d, k, x)
    requires EntryX(v, offset, d, k) <= p < x
    ensures 0 <= p && k <= p && Match(a, b, p, p - k)
  {
    EntryReached(a, b, d, v, offset, k);
    if !Match(a, b, p, p - k) {
      Wall(a, b, d, v, offset, k, p);
      FurthestBounds(a, b, d, k, x, p + 1);
    }
  }

  lemma EntryBeforeFurthest<T>(a: seq<T>, b: seq<T>, d: int, v: seq<int>, offset: int, k: int, x: int)
    requires Ready(a, b, d, v, offset) && Visits(d, k)
    requires Furthest(a, b, d, k, x)
    ensures EntryX(v, offset, d, k) <= x
  {
    EntryReached(a, b, d, v, offset, k);
    FurthestBounds(a, b, d, k, x, EntryX(v, offset, d, k));
  }

  // The stop test x >= n && y >= m fires only at (n, m), in the first round
  // that can reach it.
  lemma StopIsExact<T>(a: seq<T>, b: seq<T>, d: int, k: int, x: int)
    requires Furthest(a, b, d, k, x) && d <= Distance(a, b)
    requires x >= |a| && x - k >= |b|
    ensures x == |a| && x - k == |b| && Distance(a, b) == d
  {
    OffGrid(a, b, x, x - k);
  }

  lemma EndIsFurthest<T>(a: seq<T>, b: seq<T>)
    ensures Visits(Distance(a, b), |a| - |b|)
    ensures Furthest(a, b, Distance(a, b), |a| - |b|, |a|)
  {
    OffDiagonal(a, b, |a|, |b|);
    EndParity(Distance(a, b), |a|, |b|) by { Parity(a, b, |a|, |b|); }
    PastOldEnd(a, b, |a|, |b| + 1);
    PastNewEnd(a, b, |a|, |b|);
  }

  lemma EndParity(d: int, x: int, y: int)
    requires Even(d) == Even(x + y)
    ensures Even(x - y + d)
  {
  }

  // A round on which the test never fires leaves (n, m) out of reach.
  lemma NoStop<T>(a: seq<T>, b: seq<T>, d: int, v: seq<int>, offset: int)
    requires Front(a, b, d, v, offset) && d <= Distance(a, b)
    ensures d < Distance(a, b)
  {
    if Distance(a, b) == d {
      var k := |a| - |b|;
      EndIsFurthest(a, b);
      assert Furthest(a, b, d, k, v[offset + k]);
      FurthestBounds(a, b, d, k, v[offset + k], |a|);
    }
  }

  // ----- the search ---------------------------------------------------------

  function Replacement<T>(a: seq<T>, b: seq<T>): seq<Op<T>> {
    OpsOf(Delete, a) + OpsOf(Insert, b)
  }

  lemma ReplacementIsScript<T>(a: seq<T>, b: seq<T>)
    ensures IsScript(Replacement(a, b), a, b)
    ensures Cost(Replacement(a, b)) == |a| + |b|
  {
    SidesAppend(OpsOf(Delete, a), OpsOf(Insert, b));
    SidesOfOps(Delete, a);
    SidesOfOps(Insert, b);
  }

  method Copied(v: array<int>) returns (next: array<int>)
    ensures fresh(next) && next[..] == v[..]
  {
    next := new int[v.Length];
    forall i | 0 <= i < v.Length { next[i] := v[i]; }
  }

  // One round of the search: fills `next` diagonal by diagonal and stops
  // early when the end is reached.
  lemma FrontStart<T>(a: seq<T>, b: seq<T>, d: int, v: seq<int>, offset: int)
    requires 0 <= d < offset && |v| > 2 * offset
    ensures FrontBefore(a, b, d, v, offset, -d) && Even(-d + d)
  {
  }

  lemma FrontDone<T>(a: seq<T>, b: seq<T>, d: int, v: seq<int>, offset: int, k: int)
    requires FrontBefore(a, b, d, v, offset, k) && k > d
    ensures Front(a, b, d, v, offset)
  {
  }

  method Round<T(==)>(a: seq<T>, b: seq<T>, d: int, v: array<int>, offset: int, next: array<int>)
    returns (found: bool)
    requires v != next && v.Length == next.Length && next[..] == v[..]
    requires Ready(a, b, d, v[..], offset) && d <= Distance(a, b)
    modifies next
    ensures found ==> Distance(a, b) == d
    ensures !found ==> Front(a, b, d, next[..], offset) && d < Distance(a, b)
  {
    hide Dist, Distance, Furthest, Front, FrontBefore, Even;
    FrontStart(a, b, d, next[..], offset);
    found := false;
    ghost var was := v[..];
    var k := -d;
    while k <= d
      invariant -d <= k <= d + 2 && Even(k + d)
      invariant v[..] == was && !found
      invariant FrontBefore(a, b, d, next[..], offset, k)
    {
      var x :=
        if k == -d || (k != d && v[offset + k - 1] < v[offset + k + 1])
        then v[offset + k + 1]
        else v[offset + k - 1] + 1;
      assert x == EntryX(was, offset, d, k);
      var y := x - k;
      EntryReached(a, b, d, was, offset, k);
      ghost var done := next[..];
      while x < |a| && y < |b| && a[x] == b[y]
        invariant y == x - k && 0 <= y && EntryX(was, offset, d, k) <= x && 0 <= x
        invariant Dist(a, b, x, y) <= d
        invariant v[..] == was && next[..] == done
      {
        Diagonal(a, b, x, y);
        x := x + 1;
        y := y + 1;
      }
      Wall(a, b, d, was, offset, k, x);
      next[offset + k] := x;
      assert next[..] == done[offset + k := x];
      if x >= |a| && y >= |b| {
        StopIsExact(a, b, d, k, x);
        found := true;
        break;
      }
      FrontStep(a, b, d, done, offset, k, x);
      k := k + 2;
    }
    if !found {
      FrontDone(a, b, d, next[..], offset, k);
      NoStop(a, b, d, next[..], offset);
    }
  }

  // What the search keeps for the back-walk: the array before each round.
  ghost predicate Traced<T>(a: seq<T>, b: seq<T>, trace: seq<seq<int>>, offset: int) {
    forall d :: 0 <= d < |trace| ==> Ready(a, b, d, trace[d], offset)
  }

  method Search<T(==)>(a: seq<T>, b: seq<T>, max: nat) returns (found: int, trace: seq<seq<int>>)
    ensures found == (if Distance(a, b) <= max then Distance(a, b) else -1)
    ensures found >= 0 ==> |trace| == found + 1
    ensures Traced(a, b, trace, max + 1)
  {
    var offset := max + 1;
    var v := new int[2 * max + 3](_ => 0);
    trace := [];
    found := -1;
    var d := 0;
    while d <= max && found < 0
      invariant 0 <= d <= max + 1 && |trace| == d && -1 <= found
      invariant v.Length == 2 * max + 3
      invariant found < 0 && d <= max ==> Ready(a, b, d, v[..], offset)
      invariant found < 0 ==> d <= Distance(a, b)
      invariant found >= 0 ==> found == d - 1 == Distance(a, b)
      invariant Traced(a, b, trace, offset)
    {
      trace := trace + [v[..]];
      var next := Copied(v);
      var reached := Round(a, b, d, v, offset, next);
      if reached { found := d; }
      v := next;
      d := d + 1;
    }
  }

  // What the back-walk holds at (x, y): last first, the operations of a
  // script from there to the end, and their cost.
  ghost predicate Rest<T>(a: seq<T>, b: seq<T>, x: int, y: int, ops: seq<Op<T>>, cost: int) {
    0 <= x <= |a| && 0 <= y <= |b|
    && IsScript(Reversed(ops), a[x..], b[y..]) && Cost(Reversed(ops)) == cost
  }

  // Pushing the operation that leads to (x, y) extends the script.
  lemma Prepend<T>(a: seq<T>, b: seq<T>, x: int, y: int, ops: seq<Op<T>>, cost: int, kind: Kind)
    requires Rest(a, b, x, y, ops, cost)
    requires kind != Insert ==> x > 0
    requires kind != Delete ==> y > 0
    requires kind == Keep ==> a[x - 1] == b[y - 1]
    ensures
      var line := if kind == Insert then b[y - 1] else a[x - 1];
      Rest(a, b, if kind == Insert then x else x - 1, if kind == Delete then y else y - 1,
           ops + [Op(kind, line)], if kind == Keep then cost else cost + 1)
  {
    var op := Op(kind, if kind == Insert then b[y - 1] else a[x - 1]);
    ReversedPush(ops, op);
    assert ([op] + Reversed(ops))[1..] == Reversed(ops);
  }

  lemma RestWithin<T>(a: seq<T>, b: seq<T>, x: int, y: int, ops: seq<Op<T>>, cost: int)
    requires Rest(a, b, x, y, ops, cost)
    ensures 0 <= x <= |a| && 0 <= y <= |b|
  {
  }

  lemma PrependKeep<T>(a: seq<T>, b: seq<T>, x: int, y: int, ops: seq<Op<T>>, cost: int)
    requires Rest(a, b, x, y, ops, cost) && x > 0 && y > 0 && a[x - 1] == b[y - 1]
    ensures Rest(a, b, x - 1, y - 1, ops + [Op(Keep, a[x - 1])], cost)
  {
    Prepend(a, b, x, y, ops, cost, Keep);
  }

  lemma PrependInsert<T>(a: seq<T>, b: seq<T>, x: int, y: int, ops: seq<Op<T>>, cost: int)
    requires Rest(a, b, x, y, ops, cost) && y > 0
    ensures Rest(a, b, x, y - 1, ops + [Op(Insert, b[y - 1])], cost + 1)
  {
    Prepend(a, b, x, y, ops, cost, Insert);
  }

  lemma PrependDelete<T>(a: seq<T>, b: seq<T>, x: int, y: int, ops: seq<Op<T>>, cost: int)
    requires Rest(a, b, x, y, ops, cost) && x > 0
    ensures Rest(a, b, x - 1, y, ops + [Op(Delete, a[x - 1])], cost + 1)
  {
    Prepend(a, b, x, y, ops, cost, Delete);
  }

  // The furthest point of round d was entered from one of round d - 1.
  lemma Predecessor<T>(a: seq<T>, b: seq<T>, d: int, v: seq<int>, offset: int, k: int, x: int)
    requires 0 < d && Ready(a, b, d, v, offset) && Visits(d, k) && Furthest(a, b, d, k, x)
    ensures var down := EntersDown(v, offset, d, k);
      var pk := if down then k + 1 else k - 1;
      var px := v[offset + pk];
      && Visits(d - 1, pk) && Furthest(a, b, d - 1, pk, px)
      && 0 <= px && pk <= px
      && EntryX(v, offset, d, k) == (if down then px else px + 1) <= x
  {
    EntryReached(a, b, d, v, offset, k);
    EntryBeforeFurthest(a, b, d, v, offset, k, x);
  }

  // Undoes round d: the matches it slid over, then the edit it made.
  method Retrace<T(==)>(a: seq<T>, b: seq<T>, d: int, prev: seq<int>, offset: int, x0: int, y0: int, ops0: seq<Op<T>>, ghost cost: int)
    returns (x: int, y: int, ops: seq<Op<T>>)
    requires 0 < d && Ready(a, b, d, prev, offset)
    requires Visits(d, x0 - y0) && Furthest(a, b, d, x0 - y0, x0)
    requires Rest(a, b, x0, y0, ops0, cost)
    ensures Visits(d - 1, x - y) && Furthest(a, b, d - 1, x - y, x)
    ensures Rest(a, b, x, y, ops, cost + 1)
  {
    hide Furthest, Front, Dist, Even, IsScript, Cost, Reversed;
    x, y, ops := x0, y0, ops0;
    var k := x - y;
    Predecessor(a, b, d, prev, offset, k, x0);
    RestWithin(a, b, x0, y0, ops0, cost);
    var down := k == -d || (k != d && prev[offset + k - 1] < prev[offset + k + 1]);
    var prevK := if down then k + 1 else k - 1;
    var prevX := prev[offset + prevK];
    var prevY := prevX - prevK;
    hide Rest;
    while x > prevX && y > prevY
      invariant EntryX(prev, offset, d, k) <= x <= x0 && y == x - k
      invariant Rest(a, b, x, y, ops, cost)
    {
      SlideMatches(a, b, d, prev, offset, k, x0, x - 1);
      PrependKeep(a, b, x, y, ops, cost);
      ops := ops + [Op(Keep, a[x - 1])];
      x := x - 1;
      y := y - 1;
    }
    if down {
      PrependInsert(a, b, x, y, ops, cost);
      ops := ops + [Op(Insert, b[y - 1])];
    } else {
      PrependDelete(a, b, x, y, ops, cost);
      ops := ops + [Op(Delete, a[x - 1])];
    }
    x := prevX;
    y := prevY;
  }

  // Walks the trace back from (n, m). The operations come out last first.
  lemma NoEditsLeft<T>(a: seq<T>, b: seq<T>, x: int, y: int)
    requires Visits(0, x - y) && Furthest(a, b, 0, x - y, x)
    ensures 0 <= x == y && Dist(a, b, x, y) == 0
  {
  }

  lemma RestStart<T>(a: seq<T>, b: seq<T>)
    ensures Rest(a, b, |a|, |b|, [], 0)
  {
  }

  lemma RestDone<T>(a: seq<T>, b: seq<T>, ops: seq<Op<T>>, cost: int)
    requires Rest(a, b, 0, 0, ops, cost)
    ensures IsScript(Reversed(ops), a, b) && Cost(Reversed(ops)) == cost
  {
    assert a[0..] == a && b[0..] == b;
  }

  method BackWalk<T(==)>(a: seq<T>, b: seq<T>, found: int, trace: seq<seq<int>>, offset: int)
    returns (ops: seq<Op<T>>)
    requires found == Distance(a, b) && |trace| == found + 1
    requires Traced(a, b, trace, offset)
    ensures IsScript(Reversed(ops), a, b) && Cost(Reversed(ops)) == found
  {
    hide Furthest, Dist, Front, Reversed, IsScript, Cost, Even;
    RestStart(a, b);
    ops := [];
    var x, y := |a|, |b|;
    EndIsFurthest(a, b);
    var d := found;
    while d > 0
      invariant 0 <= d <= found
      invariant Visits(d, x - y) && Furthest(a, b, d, x - y, x)
      invariant Rest(a, b, x, y, ops, found - d)
    {
      x, y, ops := Retrace(a, b, d, trace[d], offset, x, y, ops, found - d);
      d := d - 1;
    }
    NoEditsLeft(a, b, x, y);
    while x > 0 && y > 0
      invariant 0 <= x == y && Dist(a, b, x, y) == 0
      invariant Rest(a, b, x, y, ops, found)
    {
      ZeroMatches(a, b, x);
      PrependKeep(a, b, x, y, ops, found);
      ops := ops + [Op(Keep, a[x - 1])];
      x := x - 1;
      y := y - 1;
    }
    RestDone(a, b, ops, found);
  }

  lemma ZeroMatches<T>(a: seq<T>, b: seq<T>, x: nat)
    requires 0 < x && Dist(a, b, x, x) == 0
    ensures Match(a, b, x - 1, x - 1) && Dist(a, b, x - 1, x - 1) == 0
  {
  }

  method Middle<T(==)>(a: seq<T>, b: seq<T>) returns (ops: seq<Op<T>>)
    ensures IsScript(ops, a, b)
    ensures Distance(a, b) <= 1000 ==> Cost(ops) == Distance(a, b)
    ensures Distance(a, b) > 1000 ==> ops == Replacement(a, b)
  {
    ReplacementIsScript(a, b);
    OffDiagonal(a, b, |a|, |b|);
    if |a| == 0 || |b| == 0 {
      return Replacement(a, b);
    }
    var max := Min(|a| + |b|, MAX_EDIT_DISTANCE);
    var found, trace := Search(a, b, max);
    if found < 0 {
      return Replacement(a, b);
    }
    ops := BackWalk(a, b, found, trace, max + 1);
    ops := Reversed(ops);
  }

  // Trims the common first and last lines and diffs the middle.
  method DiffLines<T(==, !new)>(a: seq<T>, b: seq<T>) returns (ops: seq<Op<T>>)
    ensures IsScript(ops, a, b)
    ensures Distance(a, b) <= 1000 ==> Cost(ops) == Distance(a, b)
    ensures forall s :: IsScript(s, a, b) && Cost(s) <= 1000 ==> Cost(ops) <= Cost(s)
  {
    var start := 0;
    while start < |a| && start < |b| && a[start] == b[start]
      invariant 0 <= start <= |a| && start <= |b| && a[..start] == b[..start]
    {
      start := start + 1;
    }
    var endA, endB := |a|, |b|;
    while endA > start && endB > start && a[endA - 1] == b[endB - 1]
      invariant start <= endA <= |a| && start <= endB <= |b|
      invariant a[endA..] == b[endB..]
    {
      assert a[endA - 1..] == [a[endA - 1]] + a[endA..];
      assert b[endB - 1..] == [b[endB - 1]] + b[endB..];
      endA := endA - 1;
      endB := endB - 1;
    }
    var mid := Middle(a[start..endA], b[start..endB]);
    ops := OpsOf(Keep, a[..start]) + mid + OpsOf(Keep, a[endA..]);
    Assembled(a, b, start, endA, endB, mid);
    forall s | IsScript(s, a, b) && Cost(s) <= 1000
      ensures Cost(ops) <= Cost(s)
    {
      DistanceIsLeast(s, a, b);
    }
  }

  lemma Assembled<T>(a: seq<T>, b: seq<T>, start: nat, endA: nat, endB: nat, mid: seq<Op<T>>)
    requires start <= endA <= |a| && start <= endB <= |b|
    requires a[..start] == b[..start] && a[endA..] == b[endB..]
    requires IsScript(mid, a[start..endA], b[start..endB])
    ensures IsScript(OpsOf(Keep, a[..start]) + mid + OpsOf(Keep, a[endA..]), a, b)
    ensures Cost(OpsOf(Keep, a[..start]) + mid + OpsOf(Keep, a[endA..])) == Cost(mid)
    ensures Distance(a, b) == Distance(a[start..endA], b[start..endB])
  {
    var p, s := a[..start], a[endA..];
    assert a == p + a[start..endA] + s;
    assert b == p + b[start..endB] + s;
    Surround(p, a[start..endA], b[start..endB], s, mid);
    Trimmed(p, a[start..endA], b[start..endB], s);
  }

  lemma Surround<T>(p: seq<T>, ma: seq<T>, mb: seq<T>, s: seq<T>, mid: seq<Op<T>>)
    requires IsScript(mid, ma, mb)
    ensures IsScript(OpsOf(Keep, p) + mid + OpsOf(Keep, s), p + ma + s, p + mb + s)
    ensures Cost(OpsOf(Keep, p) + mid + OpsOf(Keep, s)) == Cost(mid)
  {
    var pre, post := OpsOf(Keep, p), OpsOf(Keep, s);
    SidesAppend(pre + mid, post);
    SidesAppend(pre, mid);
    SidesOfOps(Keep, p);
    SidesOfOps(Keep, s);
  }

  lemma Trimmed<T>(p: seq<T>, ma: seq<T>, mb: seq<T>, s: seq<T>)
    ensures Distance(p + ma + s, p + mb + s) == Distance(ma, mb)
  {
    TrimSuffix(p + ma, p + mb, s);
    TrimPrefix(p, ma, mb);
  }

  // The distance is attained, so `Cost(ops) == Distance(a, b)` says least.
  lemma {:induction false} DistanceAttained<T>(a: seq<T>, b: seq<T>, x: nat, y: nat) returns (ops: seq<Op<T>>)
    requires x <= |a| && y <= |b|
    ensures IsScript(ops, a[..x], b[..y]) && Cost(ops) == Dist(a, b, x, y)
    decreases x + y
  {
    if x == 0 || y == 0 {
      ReplacementIsScript(a[..x], b[..y]);
      ops := Replacement(a[..x], b[..y]);
    } else if Match(a, b, x - 1, y - 1) {
      Diagonal(a, b, x - 1, y - 1);
      ops := DistanceAttained(a, b, x - 1, y - 1);
      ops := Extended(ops, a, b, x - 1, y - 1, Keep);
    } else if Dist(a, b, x - 1, y) <= Dist(a, b, x, y - 1) {
      ops := DistanceAttained(a, b, x - 1, y);
      ops := Extended(ops, a, b, x - 1, y, Delete);
    } else {
      ops := DistanceAttained(a, b, x, y - 1);
      ops := Extended(ops, a, b, x, y - 1, Insert);
    }
  }

  lemma Extended<T>(front: seq<Op<T>>, a: seq<T>, b: seq<T>, x: nat, y: nat, kind: Kind) returns (ops: seq<Op<T>>)
    requires x <= |a| && y <= |b| && IsScript(front, a[..x], b[..y])
    requires kind != Insert ==> x < |a|
    requires kind != Delete ==> y < |b|
    requires kind == Keep ==> a[x] == b[y]
    ensures IsScript(ops, a[..if kind == Insert then x else x + 1], b[..if kind == Delete then y else y + 1])
    ensures Cost(ops) == Cost(front) + if kind == Keep then 0 else 1
  {
    var last := Op(kind, if kind == Insert then b[y] else a[x]);
    ops := front + [last];
    SidesAppend(front, [last]);
    if kind != Insert { assert a[..x + 1] == a[..x] + [a[x]]; }
    if kind != Delete { assert b[..y + 1] == b[..y] + [b[y]]; }
  }
}

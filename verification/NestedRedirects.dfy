/**
 Several redirects in one process: each saves the os.Stdout it finds, and Close puts the saved one back.
 File 0 is the genuine stdout, the others are write ends of pipes in the order they were made.
 */
module NestedRedirects {

  datatype Redirect = Redirect(genuine: nat, writeEnd: nat)

  /** os.Stdout, which files are open, and the redirects installed so far. */
  datatype Console = Console(stdout: nat, open: seq<bool>, redirects: seq<Redirect>)
  {
    predicate Valid() {
      && |open| == |redirects| + 1 && stdout < |open|
      && (forall k :: 0 <= k < |redirects| ==> redirects[k].genuine <= k && redirects[k].writeEnd == k + 1)
    }
  }

  datatype Op = Install | Close(k: nat)

  predicate Can(c: Console, op: Op) { op.Close? ==> op.k < |c.redirects| }

  function Apply(c: Console, op: Op): (c': Console)
    requires c.Valid() && Can(c, op)
    ensures c'.Valid()
  {
    match op
    case Install => Console(|c.open|, c.open + [true], c.redirects + [Redirect(c.stdout, |c.open|)])
    case Close(k) => c.(stdout := c.redirects[k].genuine, open := c.open[c.redirects[k].writeEnd := false])
  }

  class Process {
    var stdout: nat
    var open: seq<bool>
    var redirects: seq<Redirect>

    constructor ()
      ensures Now() == Console(0, [true], []) && Now().Valid()
    {
      stdout, open, redirects := 0, [true], [];
    }

    function Now(): Console
      reads this
    {
      Console(stdout, open, redirects)
    }

    method InstallStdoutRedirect() returns (r: Redirect, saved: nat)
      requires Now().Valid()
      modifies this
      ensures Now() == Apply(old(Now()), Install)
      ensures r == redirects[|redirects| - 1] && saved == old(stdout) == r.genuine && stdout == r.writeEnd
    {
      var writeEnd := |open|;
      open := open + [true];
      saved := stdout;
      stdout := writeEnd;
      r := Redirect(saved, writeEnd);
      redirects := redirects + [r];
    }

    /** The original is restored even when the write end turns out to be closed already. */
    method Close(k: nat) returns (ok: bool)
      requires Now().Valid() && k < |redirects|
      modifies this
      ensures Now() == Apply(old(Now()), Op.Close(k))
      ensures ok == old(open)[redirects[k].writeEnd]
    {
      stdout := redirects[k].genuine;
      var writeEnd := redirects[k].writeEnd;
      if !open[writeEnd] {
        assert open[writeEnd := false] == open;
        return false;
      }
      open := open[writeEnd := false];
      return true;
    }
  }

  ghost predicate Legal(c: Console, ops: seq<Op>)
    requires c.Valid()
    decreases ops
  {
    ops == [] || (Can(c, ops[0]) && Legal(Apply(c, ops[0]), ops[1..]))
  }

  ghost function After(c: Console, ops: seq<Op>): (c': Console)
    requires c.Valid() && Legal(c, ops)
    ensures c'.Valid()
    decreases ops
  {
    if ops == [] then c else After(Apply(c, ops[0]), ops[1..])
  }

  lemma {:induction false} Chain(c: Console, a: seq<Op>, b: seq<Op>)
    requires c.Valid() && Legal(c, a) && Legal(After(c, a), b)
    ensures Legal(c, a + b) && After(c, a + b) == After(After(c, a), b)
    decreases a
  {
    if a == [] {
      assert a + b == b;
    } else {
      Chain(Apply(c, a[0]), a[1..], b);
      assert (a + b)[1..] == a[1..] + b;
    }
  }

  // ----- Nested use -----

  /** Servers that redirect, run others inside and close, one after another. */
  datatype Nest = Quiet | Serve(inner: Nest, rest: Nest)

  function Size(n: Nest): nat {
    match n
    case Quiet => 0
    case Serve(inner, rest) => 1 + Size(inner) + Size(rest)
  }

  /** What they do, when `k` redirects exist already: every redirect is closed in reverse order. */
  function Ops(n: Nest, k: nat): seq<Op> {
    match n
    case Quiet => []
    case Serve(inner, rest) => [Install] + Ops(inner, k + 1) + [Close(k)] + Ops(rest, k + 1 + Size(inner))
  }

  /** os.Stdout is back, and what was added are `size` redirects, all closed. */
  ghost predicate Restores(c: Console, c': Console, size: nat) {
    && c'.stdout == c.stdout
    && |c'.redirects| == |c.redirects| + size && c'.redirects[..|c.redirects|] == c.redirects
    && c'.open == c.open + seq(size, _ => false)
  }

  lemma RestoresTwice(a: Console, b: Console, c: Console, m: nat, n: nat)
    requires Restores(a, b, m) && Restores(b, c, n)
    ensures Restores(a, c, m + n)
  {
    assert c.redirects[..|a.redirects|] == c.redirects[..|b.redirects|][..|a.redirects|];
    assert c.open == a.open + seq(m, _ => false) + seq(n, _ => false) == a.open + seq(m + n, _ => false);
  }

  lemma BracketRestores(c: Console, c2: Console, inside: nat)
    requires c.Valid() && c2.Valid() && Restores(Apply(c, Install), c2, inside)
    ensures Can(c2, Close(|c.redirects|)) && Restores(c, Apply(c2, Close(|c.redirects|)), 1 + inside)
  {
    var k := |c.redirects|;
    assert c2.redirects[k] == c2.redirects[..k + 1][k] == Redirect(c.stdout, k + 1);
    assert c2.redirects[..k] == c2.redirects[..k + 1][..k];
    assert c2.open == c.open + [true] + seq(inside, _ => false);
    assert c2.open[k + 1 := false] == c.open + seq(1 + inside, _ => false);
  }

  lemma Once(c: Console, op: Op)
    requires c.Valid() && Can(c, op)
    ensures Legal(c, [op]) && After(c, [op]) == Apply(c, op)
  {
    hide Apply;
    assert [op][1..] == [];
  }

  lemma Bracket(c: Console, inner: seq<Op>, k: nat)
    requires c.Valid() && Legal(Apply(c, Install), inner) && Can(After(Apply(c, Install), inner), Close(k))
    ensures var ops := [Install] + inner + [Close(k)];
      Legal(c, ops) && After(c, ops) == Apply(After(Apply(c, Install), inner), Close(k))
  {
    hide Apply, Can;
    InstallIsLegal(c);
    var c1 := Apply(c, Install);
    Once(c, Install);
    Chain(c, [Install], inner);
    Once(After(c1, inner), Close(k));
    Chain(c, [Install] + inner, [Close(k)]);
  }

  lemma InstallIsLegal(c: Console)
    ensures Can(c, Install)
  {
  }

  /** Nested to any depth, they leave os.Stdout as it was and none of their pipes open. */
  lemma {:induction false} NestingRestores(c: Console, n: Nest)
    requires c.Valid()
    ensures var ops := Ops(n, |c.redirects|); Legal(c, ops) && Restores(c, After(c, ops), Size(n))
    decreases n
  {
    hide Apply, Can, Restores;
    match n
    case Quiet =>
      NothingRestores(c);
    case Serve(inner, rest) =>
      var k := |c.redirects|;
      InstallIsLegal(c);
      InstallCounts(c);
      var c1 := Apply(c, Install);
      NestingRestores(c1, inner);
      var c2 := After(c1, Ops(inner, k + 1));
      BracketRestores(c, c2, Size(inner));
      var c3 := Apply(c2, Close(k));
      Bracket(c, Ops(inner, k + 1), k);
      RestoresCount(c, c3, 1 + Size(inner));
      NestingRestores(c3, rest);
      Chain(c, [Install] + Ops(inner, k + 1) + [Close(k)], Ops(rest, k + 1 + Size(inner)));
      RestoresTwice(c, c3, After(c3, Ops(rest, k + 1 + Size(inner))), 1 + Size(inner), Size(rest));
  }

  lemma NothingRestores(c: Console)
    ensures Restores(c, c, 0)
  {
    assert c.redirects[..|c.redirects|] == c.redirects && c.open == c.open + seq(0, _ => false);
  }

  lemma InstallCounts(c: Console)
    requires c.Valid()
    ensures |Apply(c, Install).redirects| == |c.redirects| + 1
  {
  }

  lemma RestoresCount(c: Console, c': Console, size: nat)
    requires Restores(c, c', size)
    ensures |c'.redirects| == |c.redirects| + size
  {
  }

  // ----- Any order -----

  ghost function Installed(c: Console, n: nat): (c': Console)
    requires c.Valid()
    ensures c'.Valid()
    ensures |c'.redirects| == |c.redirects| + n
    ensures forall k :: |c.redirects| <= k < |c'.redirects| ==>
      c'.redirects[k].genuine == if k == |c.redirects| then c.stdout else k
    ensures c'.stdout == if n == 0 then c.stdout else |c.redirects| + n
  {
    if n == 0 then c else Apply(Installed(c, n - 1), Install)
  }

  lemma {:induction false} LastCloseDecides(c: Console, ops: seq<Op>)
    requires c.Valid() && ops != [] && forall i :: 0 <= i < |ops| ==> ops[i].Close? && ops[i].k < |c.redirects|
    ensures Legal(c, ops) && After(c, ops).stdout == c.redirects[ops[|ops| - 1].k].genuine
    decreases ops
  {
    var c1 := Apply(c, ops[0]);
    if |ops| > 1 { LastCloseDecides(c1, ops[1..]); }
  }

  /**
   Closing the `n` redirects of a process in any order, some perhaps twice, brings the original os.Stdout
   back iff the one closed last is the one installed first.
   */
  lemma RestoredIffFirstClosedLast(c: Console, n: nat, ops: seq<Op>)
    requires c.Valid() && ops != []
    requires forall i :: 0 <= i < |ops| ==> ops[i].Close? && |c.redirects| <= ops[i].k < |c.redirects| + n
    ensures Legal(Installed(c, n), ops)
    ensures After(Installed(c, n), ops).stdout == c.stdout <==> ops[|ops| - 1].k == |c.redirects|
  {
    LastCloseDecides(Installed(c, n), ops);
  }
}

/**
 * The buffer-unpacking pass itself. After the finder has run, the pass
 *   1. lowers every buffer, in ascending name order, to its candidate lets:
 *      five per-buffer fields, then min, extent and stride per dimension;
 *   2. wraps the statement in a let for each candidate whose name the program
 *      references, the earliest candidate outermost;
 *   3. puts one "buffer is not null" assertion per buffer in front of it.
 *
 * Each step is a method with the loops of the original, proved to compute a
 * specification function (`CandidatesOf`, `LetChain` of `Live`, `Guarded`);
 * the lemmas below state the promised shape of the output in terms of those.
 */
module Unpack {
  import opened IR
  import opened FindSymbols
  import opened NameOrder

  /** One candidate let: the symbol it defines and the runtime call that defines it. */
  datatype Binding = Binding(name: string, value: Node)

  /** The facts the pass can bind for a buffer. */
  datatype Field =
    | Host | Dev | ElemSize | HostDirty | DevDirty
    | Min(dim: nat) | Extent(dim: nat) | Stride(dim: nat)
  {
    predicate PerDimension()
    {
      Min? || Extent? || Stride?
    }
  }

  /** The candidate that binds field `f` of buffer `name`, read through `info`'s handle. */
  function Candidate(name: string, info: BufferInfo, f: Field): Binding
  {
    var h := info.handle;
    match f
    case Host => Binding(name + ".host", Call(BufferGetHost, [h]))
    case Dev => Binding(name + ".dev", Call(BufferGetDev, [h]))
    case ElemSize => Binding(name + ".elem_size", Call(BufferGetElemSize, [h]))
    case HostDirty => Binding(name + ".host_dirty", Call(BufferGetHostDirty, [h]))
    case DevDirty => Binding(name + ".dev_dirty", Call(BufferGetDevDirty, [h]))
    case Min(i) => Binding(name + ".min." + Decimal(i), Call(BufferGetMin, [h, IntImm(i)]))
    case Extent(i) => Binding(name + ".extent." + Decimal(i), Call(BufferGetExtent, [h, IntImm(i)]))
    case Stride(i) => Binding(name + ".stride." + Decimal(i), Call(BufferGetStride, [h, IntImm(i)]))
  }

  /** The number of dimensions the lowering loop runs over: none for a rank below one. */
  function Rank(dimensions: int): nat
  {
    if dimensions > 0 then dimensions else 0
  }

  const FixedFields := [Host, Dev, ElemSize, HostDirty, DevDirty]

  /** The per-dimension fields of the first `n` dimensions, dimension by dimension. */
  ghost function DimFields(n: nat): seq<Field>
  {
    if n == 0 then [] else DimFields(n - 1) + [Min(n - 1), Extent(n - 1), Stride(n - 1)]
  }

  /** The fields lowered for a buffer of the given rank, in emission order. */
  ghost function FieldsOf(dimensions: int): seq<Field>
  {
    FixedFields + DimFields(Rank(dimensions))
  }

  /** Field `j` (0, 1 or 2) of dimension `i`'s triple. */
  function DimField(j: nat, i: nat): Field
  {
    if j == 0 then Min(i) else if j == 1 then Extent(i) else Stride(i)
  }

  ghost function Bindings(name: string, info: BufferInfo, fs: seq<Field>): seq<Binding>
  {
    if fs == [] then [] else Bindings(name, info, fs[..|fs| - 1]) + [Candidate(name, info, fs[|fs| - 1])]
  }

  /** All candidates of one buffer. */
  ghost function BufferCandidates(name: string, info: BufferInfo): seq<Binding>
  {
    Bindings(name, info, FieldsOf(info.dimensions))
  }

  /** The buffers as an ordered map walks them: (name, entry) pairs in ascending name order. */
  ghost function Entries(buffers: map<string, BufferInfo>): seq<(string, BufferInfo)>
  {
    var names := Sorted(buffers.Keys);
    SortedLists(buffers.Keys);
    seq(|names|, i requires 0 <= i < |names| => (names[i], buffers[names[i]]))
  }

  /** The candidates of a walk over the buffers, buffer by buffer. */
  ghost function CandidatesOf(es: seq<(string, BufferInfo)>): seq<Binding>
  {
    if es == [] then [] else CandidatesOf(es[..|es| - 1]) + BufferCandidates(es[|es| - 1].0, es[|es| - 1].1)
  }

  /** The candidates whose symbol is referenced, in their original order. */
  ghost function Live(bs: seq<Binding>, symbols: set<string>): seq<Binding>
  {
    if bs == [] then []
    else (if bs[0].name in symbols then [bs[0]] else []) + Live(bs[1..], symbols)
  }

  /** Nested lets around `body`, the first binding outermost. */
  ghost function LetChain(bs: seq<Binding>, body: Node): Node
  {
    if bs == [] then body else LetStmt(bs[0].name, bs[0].value, LetChain(bs[1..], body))
  }

  /** The check that a buffer's handle is not null, reporting the buffer by name. */
  function NullCheck(name: string, info: BufferInfo): Node
  {
    AssertStmt(Call(BufferIsNotNull, [info.handle]), Call(ErrorBufferArgumentIsNull, [StringImm(name)]))
  }

  /** `body` after wrapping each check of the walk `es` around it in turn. */
  ghost function Guarded(es: seq<(string, BufferInfo)>, body: Node): Node
  {
    if es == [] then body
    else Block(NullCheck(es[|es| - 1].0, es[|es| - 1].1), Guarded(es[..|es| - 1], body))
  }

  /** The statement `k` steps down a chain of lets and blocks (into let bodies and block tails). */
  ghost function Inner(n: Node, k: nat): Node
  {
    if k == 0 then n
    else match n
      case LetStmt(_, _, body) => Inner(body, k - 1)
      case Block(_, rest) => Inner(rest, k - 1)
      case _ => n
  }

  /** `e` is `n` or a node somewhere below it. */
  ghost predicate Occurs(e: Node, n: Node)
    decreases n, 1
  {
    e == n ||
    match n
    case Load(_, index, _, _) => Occurs(e, index)
    case Store(_, value, index, _) => Occurs(e, value) || Occurs(e, index)
    case Call(_, args) => OccursIn(e, args)
    case LetStmt(_, value, body) => Occurs(e, value) || Occurs(e, body)
    case AssertStmt(c, m) => Occurs(e, c) || Occurs(e, m)
    case Block(a, b) => Occurs(e, a) || Occurs(e, b)
    case Other(cs) => OccursIn(e, cs)
    case _ => false
  }

  ghost predicate OccursIn(e: Node, cs: seq<Node>)
    decreases cs, 0
  {
    cs != [] && (Occurs(e, cs[0]) || OccursIn(e, cs[1..]))
  }

  /** The output for a walk `es` and a set of referenced names: checks, then lets, then `s`. */
  ghost function Assemble(es: seq<(string, BufferInfo)>, symbols: set<string>, s: Node): Node
  {
    Guarded(es, LetChain(Live(CandidatesOf(es), symbols), s))
  }

  /** The whole pass, as a function of its input. */
  ghost function Unpacked(s: Node): Node
  {
    var f := Scan(s, NothingFound);
    Assemble(Entries(f.buffers), f.symbols, s)
  }

  // ---------------------------------------------------------------------
  // The pass.
  // ---------------------------------------------------------------------

  /** Lists the buffers as the ordered map walks them. */
  method WalkBuffers(buffers: map<string, BufferInfo>) returns (names: seq<string>)
    ensures |names| == |Entries(buffers)|
    ensures forall i :: 0 <= i < |names| ==> names[i] in buffers && Entries(buffers)[i] == (names[i], buffers[names[i]])
  {
    names := SortedNames(buffers.Keys);
    SortedLists(buffers.Keys);
  }

  /** Lowers every buffer, in the map's order, to its candidate lets. */
  method Lower(buffers: map<string, BufferInfo>) returns (lets: seq<Binding>)
    ensures lets == CandidatesOf(Entries(buffers))
  {
    var names := WalkBuffers(buffers);
    ghost var es := Entries(buffers);
    lets := [];
    for j := 0 to |names|
      invariant lets == CandidatesOf(es[..j])
    {
      lets := LowerBuffer(lets, names[j], buffers[names[j]]);
      assert es[..j + 1][..j] == es[..j];
    }
    assert es[..|names|] == es;
  }

  /** Appends the candidates of one buffer: its five fields, then a triple per dimension. */
  method LowerBuffer(lets: seq<Binding>, name: string, info: BufferInfo) returns (lets': seq<Binding>)
    ensures lets' == lets + BufferCandidates(name, info)
  {
    ghost var fs: seq<Field> := [];
    lets' := lets;
    lets', fs := Push(lets, fs, lets', name, info, Host);
    lets', fs := Push(lets, fs, lets', name, info, Dev);
    lets', fs := Push(lets, fs, lets', name, info, ElemSize);
    lets', fs := Push(lets, fs, lets', name, info, HostDirty);
    lets', fs := Push(lets, fs, lets', name, info, DevDirty);
    assert fs == FixedFields + DimFields(0);
    var i := 0;
    while i < info.dimensions
      invariant 0 <= i <= Rank(info.dimensions)
      invariant fs == FixedFields + DimFields(i)
      invariant lets' == lets + Bindings(name, info, fs)
    {
      lets', fs := Push(lets, fs, lets', name, info, Min(i));
      lets', fs := Push(lets, fs, lets', name, info, Extent(i));
      lets', fs := Push(lets, fs, lets', name, info, Stride(i));
      assert fs == FixedFields + DimFields(i + 1);
      i := i + 1;
    }
  }

  /** One `push_back` of the lowering loop, with the ghost list of fields pushed so far. */
  method Push(ghost before: seq<Binding>, ghost fs: seq<Field>, lets: seq<Binding>, name: string, info: BufferInfo, f: Field)
    returns (lets': seq<Binding>, ghost fs': seq<Field>)
    requires lets == before + Bindings(name, info, fs)
    ensures fs' == fs + [f]
    ensures lets' == lets + [Candidate(name, info, f)]
    ensures lets' == before + Bindings(name, info, fs')
  {
    lets' := lets + [Candidate(name, info, f)];
    fs' := fs + [f];
    BindingsSnoc(name, info, fs, f);
  }

  /**
   * Drains the candidate list from the back, wrapping the statement in a let
   * for each candidate whose name is referenced.
   */
  method WrapLive(lets: seq<Binding>, symbols: set<string>, s: Node) returns (r: Node)
    ensures r == LetChain(Live(lets, symbols), s)
  {
    var pending := lets;
    r := s;
    while pending != []
      invariant |pending| <= |lets| && pending == lets[..|pending|]
      invariant r == LetChain(Live(lets[|pending|..], symbols), s)
      decreases |pending|
    {
      var k := |pending| - 1;
      var l := pending[k];
      pending := pending[..k];
      assert l == lets[k];
      assert lets[k..] == [l] + lets[k + 1..];
      ghost var live := Live(lets[k + 1..], symbols);
      assert Live(lets[k..], symbols) == (if l.name in symbols then [l] else []) + live;
      if l.name in symbols {
        assert LetChain([l] + live, s) == LetStmt(l.name, l.value, LetChain(live, s));
        r := LetStmt(l.name, l.value, r);
      } else {
        assert Live(lets[k..], symbols) == live;
      }
    }
  }

  /** Wraps one null check per buffer around the statement, in the map's order. */
  method AddNullChecks(buffers: map<string, BufferInfo>, s: Node) returns (r: Node)
    ensures r == Guarded(Entries(buffers), s)
  {
    var names := WalkBuffers(buffers);
    ghost var es := Entries(buffers);
    r := s;
    for j := 0 to |names|
      invariant r == Guarded(es[..j], s)
    {
      var name := names[j];
      var check := NullCheck(name, buffers[name]);
      r := Block(check, r);
      assert es[..j + 1][..j] == es[..j];
    }
    assert es[..|names|] == es;
  }

  /** The pass: find the buffers, bind the referenced facts, check the handles. */
  method UnpackBuffers(s: Node) returns (r: Node)
    ensures r == Unpacked(s)
  {
    var found := FindBuffers(s);
    var lets := Lower(found.buffers);
    r := WrapLive(lets, found.symbols, s);
    r := AddNullChecks(found.buffers, r);
  }

  // ---------------------------------------------------------------------
  // Lemmas.
  // ---------------------------------------------------------------------

  lemma BindingsSnoc(name: string, info: BufferInfo, fs: seq<Field>, f: Field)
    ensures Bindings(name, info, fs + [f]) == Bindings(name, info, fs) + [Candidate(name, info, f)]
  {
    assert (fs + [f])[..|fs|] == fs;
  }

  lemma {:induction false} DimFieldsAt(n: nat)
    ensures |DimFields(n)| == 3 * n
    ensures forall k :: 0 <= k < 3 * n ==> DimFields(n)[k] == DimField(k % 3, k / 3)
  {
    if n > 0 {
      DimFieldsAt(n - 1);
      var prev := DimFields(n - 1);
      forall k | 0 <= k < 3 * n ensures DimFields(n)[k] == DimField(k % 3, k / 3) {
        if k >= 3 * (n - 1) {
          var j := k - 3 * (n - 1);
          assert k % 3 == j && k / 3 == n - 1;
        }
      }
    }
  }

  /**
   * A buffer of rank `d` gets exactly `5 + 3 d` fields: host, dev, elem_size,
   * host_dirty and dev_dirty, then min, extent and stride of each dimension in
   * ascending order, and never a dimension of `d` or more.
   */
  lemma FieldsLayout(dimensions: int)
    ensures |FieldsOf(dimensions)| == 5 + 3 * Rank(dimensions)
    ensures FieldsOf(dimensions)[..5] == [Host, Dev, ElemSize, HostDirty, DevDirty]
    ensures forall k :: 5 <= k < |FieldsOf(dimensions)| ==>
      (k - 5) / 3 < Rank(dimensions) && FieldsOf(dimensions)[k] == DimField((k - 5) % 3, (k - 5) / 3)
    ensures forall f :: f in FieldsOf(dimensions) && f.PerDimension() ==> f.dim < Rank(dimensions)
  {
    var n := Rank(dimensions);
    DimFieldsAt(n);
    var fs := FieldsOf(dimensions);
    forall k | 5 <= k < |fs| ensures (k - 5) / 3 < n && fs[k] == DimField((k - 5) % 3, (k - 5) / 3) {
      assert fs[k] == DimFields(n)[k - 5];
    }
    forall f | f in fs && f.PerDimension() ensures f.dim < n {
      var k :| 0 <= k < |fs| && fs[k] == f;
    }
  }

  lemma {:induction false} BindingsAt(name: string, info: BufferInfo, fs: seq<Field>)
    ensures |Bindings(name, info, fs)| == |fs|
    ensures forall k :: 0 <= k < |fs| ==> Bindings(name, info, fs)[k] == Candidate(name, info, fs[k])
    decreases |fs|
  {
    if fs != [] {
      BindingsAt(name, info, fs[..|fs| - 1]);
    }
  }

  /**
   * The candidates of one buffer, position by position: the five per-buffer
   * fields, then one (min, extent, stride) triple per dimension below its rank.
   */
  lemma BufferCandidatesLayout(name: string, info: BufferInfo)
    ensures |BufferCandidates(name, info)| == 5 + 3 * Rank(info.dimensions)
    ensures forall k :: 0 <= k < 5 ==> BufferCandidates(name, info)[k] == Candidate(name, info, FixedFields[k])
    ensures forall k :: 5 <= k < |BufferCandidates(name, info)| ==>
      (k - 5) / 3 < Rank(info.dimensions) &&
      BufferCandidates(name, info)[k] == Candidate(name, info, DimField((k - 5) % 3, (k - 5) / 3))
  {
    FieldsLayout(info.dimensions);
    BindingsAt(name, info, FieldsOf(info.dimensions));
    var fs := FieldsOf(info.dimensions);
    forall k | 0 <= k < 5 ensures fs[k] == FixedFields[k] {
      assert fs[..5][k] == fs[k];
    }
  }

  /** Walking two groups of buffers one after the other lists their candidates one after the other. */
  lemma {:induction false} CandidatesAppend(a: seq<(string, BufferInfo)>, b: seq<(string, BufferInfo)>)
    ensures CandidatesOf(a + b) == CandidatesOf(a) + CandidatesOf(b)
    decreases |b|
  {
    if b != [] {
      var last := |b| - 1;
      assert (a + b)[..|a + b| - 1] == a + b[..last];
      assert (a + b)[|a + b| - 1] == b[last];
      CandidatesAppend(a, b[..last]);
      assert CandidatesOf(a + b) == (CandidatesOf(a) + CandidatesOf(b[..last])) + BufferCandidates(b[last].0, b[last].1);
    } else {
      assert a + b == a;
    }
  }

  /** A candidate is kept iff its name is referenced. */
  lemma {:induction false} LiveMembers(bs: seq<Binding>, symbols: set<string>)
    ensures forall b :: b in Live(bs, symbols) <==> b in bs && b.name in symbols
    decreases |bs|
  {
    if bs != [] {
      LiveMembers(bs[1..], symbols);
      assert bs == [bs[0]] + bs[1..];
    }
  }

  lemma {:induction false} NoneLive(bs: seq<Binding>, symbols: set<string>)
    requires forall b :: b in bs ==> b.name !in symbols
    ensures Live(bs, symbols) == []
    decreases |bs|
  {
    if bs != [] {
      assert bs[0] in bs;
      NoneLive(bs[1..], symbols);
    }
  }

  /** Keeping the referenced candidates does not reorder them. */
  lemma {:induction false} LiveAppend(a: seq<Binding>, b: seq<Binding>, symbols: set<string>)
    ensures Live(a + b, symbols) == Live(a, symbols) + Live(b, symbols)
    decreases |a|
  {
    if a != [] {
      assert (a + b)[0] == a[0] && (a + b)[1..] == a[1..] + b;
      LiveAppend(a[1..], b, symbols);
      var head := if a[0].name in symbols then [a[0]] else [];
      assert Live(a + b, symbols) == head + (Live(a[1..], symbols) + Live(b, symbols));
    } else {
      assert a + b == b;
    }
  }

  /**
   * The lets nest in list order around the unchanged statement: `k` levels
   * down is the let of the `k`-th binding, and below the last one is `body`.
   */
  lemma {:induction false} LetChainAt(bs: seq<Binding>, body: Node)
    ensures forall k :: 0 <= k < |bs| ==>
      Inner(LetChain(bs, body), k) == LetStmt(bs[k].name, bs[k].value, Inner(LetChain(bs, body), k + 1))
    ensures Inner(LetChain(bs, body), |bs|) == body
    decreases |bs|
  {
    if bs != [] {
      LetChainAt(bs[1..], body);
      forall k | 0 <= k < |bs|
        ensures Inner(LetChain(bs, body), k) == LetStmt(bs[k].name, bs[k].value, Inner(LetChain(bs, body), k + 1))
      {
        if k > 0 {
          assert Inner(LetChain(bs, body), k) == Inner(LetChain(bs[1..], body), k - 1);
        }
      }
    }
  }

  /**
   * The checks come first, one block each, the last buffer of the walk
   * outermost: `k` blocks down is the check of the `k`-th buffer from the end,
   * and below all of them is `body`.
   */
  lemma {:induction false} GuardedAt(es: seq<(string, BufferInfo)>, body: Node)
    ensures forall k :: 0 <= k < |es| ==>
      Inner(Guarded(es, body), k) == Block(NullCheck(es[|es| - 1 - k].0, es[|es| - 1 - k].1), Inner(Guarded(es, body), k + 1))
    ensures Inner(Guarded(es, body), |es|) == body
    decreases |es|
  {
    if es != [] {
      var init := es[..|es| - 1];
      GuardedAt(init, body);
      forall k | 0 <= k < |es|
        ensures Inner(Guarded(es, body), k) == Block(NullCheck(es[|es| - 1 - k].0, es[|es| - 1 - k].1), Inner(Guarded(es, body), k + 1))
      {
        if k > 0 {
          assert Inner(Guarded(es, body), k) == Inner(Guarded(init, body), k - 1);
          assert es[|es| - 1 - k] == init[|init| - 1 - (k - 1)];
        }
      }
    }
  }

  /** The map's walk lists every buffer once, with its entry, in ascending name order. */
  lemma EntriesLayout(buffers: map<string, BufferInfo>)
    ensures |Entries(buffers)| == |buffers|
    ensures forall i :: 0 <= i < |Entries(buffers)| ==>
      Entries(buffers)[i].0 in buffers && Entries(buffers)[i].1 == buffers[Entries(buffers)[i].0]
    ensures forall i, j :: 0 <= i < j < |Entries(buffers)| ==> Below(Entries(buffers)[i].0, Entries(buffers)[j].0)
    ensures forall k :: k in buffers ==> exists i :: 0 <= i < |Entries(buffers)| && Entries(buffers)[i].0 == k
  {
    SortedLists(buffers.Keys);
    var names := Sorted(buffers.Keys);
    var es := Entries(buffers);
    forall k | k in buffers ensures exists i :: 0 <= i < |es| && es[i].0 == k {
      var i :| 0 <= i < |names| && names[i] == k;
      assert es[i].0 == k;
    }
  }

  /** A call that reads a buffer fact through the runtime's accessors. */
  ghost predicate IsAccessorCall(e: Node)
  {
    e.Call? && !e.callee.BufferIsNotNull? && !e.callee.ErrorBufferArgumentIsNull? && !e.callee.OtherExtern?
  }

  /** Every candidate's value is an accessor call on the buffer's handle, and holds no other call. */
  lemma CandidateValue(name: string, info: BufferInfo, f: Field, e: Node)
    requires info.handle.Variable?
    requires e.Call? && Occurs(e, Candidate(name, info, f).value)
    ensures IsAccessorCall(e) && e == Candidate(name, info, f).value
  {
    var v := Candidate(name, info, f).value;
    NoCallAmong(e, v.args);
  }

  /** Variables and integer immediates hold no call. */
  lemma {:induction false} NoCallAmong(e: Node, args: seq<Node>)
    requires e.Call?
    requires forall i :: 0 <= i < |args| ==> args[i].Variable? || args[i].IntImm?
    ensures !OccursIn(e, args)
    decreases |args|
  {
    if args != [] {
      NoCallAmong(e, args[1..]);
    }
  }

  /** Two candidates of described buffers with the same value bind the same name. */
  lemma SameValueSameName(k1: string, i1: BufferInfo, f1: Field, k2: string, i2: BufferInfo, f2: Field)
    requires Describes(k1, i1) && Describes(k2, i2)
    requires Candidate(k1, i1, f1).value == Candidate(k2, i2, f2).value
    ensures Candidate(k1, i1, f1).name == Candidate(k2, i2, f2).name
  {
    var h1, h2 := i1.handle.name, i2.handle.name;
    assert h1 == h2;
    assert |k1| == |k2|;
    assert k1 == h1[..|k1|] && k2 == h2[..|k2|];
  }

  lemma {:induction false} BindingsMembers(name: string, info: BufferInfo, fs: seq<Field>, c: Binding)
    requires c in Bindings(name, info, fs)
    ensures exists f :: c == Candidate(name, info, f)
    decreases |fs|
  {
    if c != Candidate(name, info, fs[|fs| - 1]) {
      BindingsMembers(name, info, fs[..|fs| - 1], c);
    }
  }

  /** Every candidate of a walk is a field of one of the walked buffers. */
  lemma {:induction false} CandidatesMembers(es: seq<(string, BufferInfo)>, c: Binding)
    requires c in CandidatesOf(es)
    ensures exists i, f :: 0 <= i < |es| && c == Candidate(es[i].0, es[i].1, f)
    decreases |es|
  {
    var last := |es| - 1;
    if c in BufferCandidates(es[last].0, es[last].1) {
      BindingsMembers(es[last].0, es[last].1, FieldsOf(es[last].1.dimensions), c);
      var f :| c == Candidate(es[last].0, es[last].1, f);
      assert 0 <= last < |es| && c == Candidate(es[last].0, es[last].1, f);
    } else {
      CandidatesMembers(es[..last], c);
      var i, f :| 0 <= i < last && c == Candidate(es[..last][i].0, es[..last][i].1, f);
      assert es[..last][i] == es[i];
    }
  }

  /** An accessor call inside a chain of lets comes from the body or from one of the bound values. */
  lemma {:induction false} ChainOccurs(bs: seq<Binding>, body: Node, e: Node)
    requires e.Call? && Occurs(e, LetChain(bs, body))
    ensures Occurs(e, body) || exists c :: c in bs && Occurs(e, c.value)
    decreases |bs|
  {
    if bs != [] && !Occurs(e, bs[0].value) {
      ChainOccurs(bs[1..], body, e);
      if !Occurs(e, body) {
        var c :| c in bs[1..] && Occurs(e, c.value);
        assert c in bs;
      }
    }
  }

  /** The null checks hold no accessor call. */
  lemma {:induction false} GuardedOccurs(es: seq<(string, BufferInfo)>, body: Node, e: Node)
    requires IsAccessorCall(e) && Occurs(e, Guarded(es, body))
    requires forall i :: 0 <= i < |es| ==> Describes(es[i].0, es[i].1)
    ensures Occurs(e, body)
    decreases |es|
  {
    if es != [] {
      var last := |es| - 1;
      var check := NullCheck(es[last].0, es[last].1);
      if Occurs(e, check) {
        assert Occurs(e, check.condition) || Occurs(e, check.message);
        if Occurs(e, check.condition) {
          assert OccursIn(e, check.condition.args);
          assert Occurs(e, es[last].1.handle) || OccursIn(e, check.condition.args[1..]);
        } else {
          assert OccursIn(e, check.message.args);
          assert Occurs(e, StringImm(es[last].0)) || OccursIn(e, check.message.args[1..]);
        }
        assert false;
      }
      GuardedOccurs(es[..last], body, e);
    }
  }

  /** The walk has one entry per canonical buffer name the program mentions. */
  lemma EntriesOfProgram(s: Node)
    ensures var es := Entries(Scan(s, NothingFound).buffers);
      |es| == |NamesOf(s)| && forall i :: 0 <= i < |es| ==> es[i].0 in NamesOf(s)
  {
    var f := Scan(s, NothingFound);
    ScanCollects(s, NothingFound);
    assert |f.buffers| == |f.buffers.Keys| == |NamesOf(s)|;
    EntriesLayout(f.buffers);
  }

  /**
   * The output is the assembly of the map's walk over the program's buffers
   * with exactly the names the program references.
   */
  lemma UnpackedAssembles(s: Node)
    ensures Unpacked(s) == Assemble(Entries(Scan(s, NothingFound).buffers), RefsOf(s), s)
  {
    var f := Scan(s, NothingFound);
    assert Unpacked(s) == Assemble(Entries(f.buffers), f.symbols, s);
    ScanCollects(s, NothingFound);
    assert f.symbols == RefsOf(s);
  }

  /** In the checks of a walk in ascending order, the outermost one is for the greatest name. */
  lemma GreatestOutermost(es: seq<(string, BufferInfo)>, symbols: set<string>, s: Node, g: string)
    requires forall i, j :: 0 <= i < j < |es| ==> Below(es[i].0, es[j].0)
    requires exists i :: 0 <= i < |es| && es[i].0 == g
    requires forall i :: 0 <= i < |es| && es[i].0 != g ==> Below(es[i].0, g)
    ensures es != [] && es[|es| - 1].0 == g
    ensures Assemble(es, symbols, s) == Block(NullCheck(g, es[|es| - 1].1), Inner(Assemble(es, symbols, s), 1))
  {
    var last := |es| - 1;
    var i :| 0 <= i < |es| && es[i].0 == g;
    if i != last {
      BelowAsymmetric(es[i].0, es[last].0);
    }
  }

  /** The check that runs first is the one for the greatest buffer name the program mentions. */
  lemma FirstCheckIsGreatest(s: Node, g: string)
    requires g in NamesOf(s)
    requires forall k :: k in NamesOf(s) && k != g ==> Below(k, g)
    ensures g in Scan(s, NothingFound).buffers
    ensures Unpacked(s) == Block(NullCheck(g, Scan(s, NothingFound).buffers[g]), Inner(Unpacked(s), 1))
  {
    var f := Scan(s, NothingFound);
    ScanCollects(s, NothingFound);
    EntriesLayout(f.buffers);
    GreatestOutermost(Entries(f.buffers), f.symbols, s, g);
  }

  /**
   * A candidate whose name is not referenced is computed nowhere in the
   * checked and wrapped statement, unless `s` itself already held that call.
   */
  lemma DeadCandidateNotWrapped(es: seq<(string, BufferInfo)>, symbols: set<string>, s: Node, b: Binding)
    requires forall i :: 0 <= i < |es| ==> Describes(es[i].0, es[i].1)
    requires b in CandidatesOf(es) && b.name !in symbols
    requires !Occurs(b.value, s)
    ensures !Occurs(b.value, Assemble(es, symbols, s))
  {
    var cands := CandidatesOf(es);
    var live := Live(cands, symbols);
    CandidatesMembers(es, b);
    var i1, f1 :| 0 <= i1 < |es| && b == Candidate(es[i1].0, es[i1].1, f1);
    CandidateValue(es[i1].0, es[i1].1, f1, b.value);
    if Occurs(b.value, Guarded(es, LetChain(live, s))) {
      GuardedOccurs(es, LetChain(live, s), b.value);
      ChainOccurs(live, s, b.value);
      var c :| c in live && Occurs(b.value, c.value);
      LiveMembers(cands, symbols);
      CandidatesMembers(es, c);
      var i2, f2 :| 0 <= i2 < |es| && c == Candidate(es[i2].0, es[i2].1, f2);
      CandidateValue(es[i2].0, es[i2].1, f2, b.value);
      SameValueSameName(es[i1].0, es[i1].1, f1, es[i2].0, es[i2].1, f2);
    }
  }

  /**
   * A candidate whose name the program does not reference is not computed
   * anywhere in the output (unless the input already held that very call).
   */
  lemma DeadCandidateNotEmitted(s: Node, b: Binding)
    requires b in CandidatesOf(Entries(Scan(s, NothingFound).buffers))
    requires b.name !in RefsOf(s)
    requires !Occurs(b.value, s)
    ensures !Occurs(b.value, Unpacked(s))
  {
    var found := Scan(s, NothingFound);
    ScanCollects(s, NothingFound);
    ScanKeepsWellKeyed(s, NothingFound);
    EntriesLayout(found.buffers);
    DeadCandidateNotWrapped(Entries(found.buffers), found.symbols, s, b);
  }

  /**
   * A buffer parameter referenced once, through a variable whose name is
   * none of the buffer's candidate names (its bare name, say, or its handle
   * name), gets its null check and no let at all.
   */
  lemma BareReferenceOnlyChecked(x: string, p: Parameter)
    requires IsBufferParam(p)
    requires forall f: Field :: Candidate(p.name, ParamInfo(p), f).name != x
    ensures Unpacked(Variable(x, p, NoBuffer)) == Block(NullCheck(p.name, ParamInfo(p)), Variable(x, p, NoBuffer))
  {
    var s := Variable(x, p, NoBuffer);
    var info := ParamInfo(p);
    var f := Scan(s, NothingFound);
    assert f == Found({x}, map[p.name := info]);
    assert f.buffers.Keys == {p.name};
    SortedStartsWithLeast(p.name, {p.name});
    assert {p.name} - {p.name} == {};
    var es := Entries(f.buffers);
    assert es == [(p.name, info)];
    var cands := CandidatesOf(es);
    forall b | b in cands ensures b.name !in f.symbols {
      CandidatesMembers(es, b);
      var i, fld :| 0 <= i < |es| && b == Candidate(es[i].0, es[i].1, fld);
      assert b == Candidate(p.name, info, fld);
    }
    NoneLive(cands, f.symbols);
    assert Unpacked(s) == Guarded(es, s);
    assert es[..0] == [];
    assert Guarded(es, s) == Block(NullCheck(p.name, info), Guarded([], s));
  }

  /** Neither a buffer's own name nor its handle's name is one of its candidate names. */
  lemma OwnNamesAreNoCandidates(name: string, info: BufferInfo, f: Field)
    ensures Candidate(name, info, f).name != name
    ensures Candidate(name, info, f).name != name + ".buffer"
  {
    CandidateName(name, info, f);
    SuffixShape(f);
    assert (name + Suffix(f))[|name| + 1] == Suffix(f)[1];
    assert (name + ".buffer")[|name| + 1] == 'b';
  }

  /** Every suffix is longer than three characters and is a dot followed by a lower-case letter other than `b`. */
  lemma SuffixShape(f: Field)
    ensures |Suffix(f)| >= 4 && Suffix(f)[0] == '.'
    ensures 'a' <= Suffix(f)[1] <= 'z' && Suffix(f)[1] != 'b'
  {
  }

  /** In particular, a reference by the bare parameter name binds nothing. */
  lemma BareNameOnlyChecked(p: Parameter)
    requires IsBufferParam(p)
    ensures Unpacked(Variable(p.name, p, NoBuffer)) == Block(NullCheck(p.name, ParamInfo(p)), Variable(p.name, p, NoBuffer))
  {
    forall f: Field ensures Candidate(p.name, ParamInfo(p), f).name != p.name {
      OwnNamesAreNoCandidates(p.name, ParamInfo(p), f);
    }
    BareReferenceOnlyChecked(p.name, p);
  }

  /**
   * The text a candidate's name adds to its buffer's name. `Candidate` spells
   * each name out with its own literal suffix, which keeps the proofs about
   * candidate lists small; `CandidateName` ties the two together.
   */
  function Suffix(f: Field): string
  {
    match f
    case Host => ".host"
    case Dev => ".dev"
    case ElemSize => ".elem_size"
    case HostDirty => ".host_dirty"
    case DevDirty => ".dev_dirty"
    case Min(i) => ".min." + Decimal(i)
    case Extent(i) => ".extent." + Decimal(i)
    case Stride(i) => ".stride." + Decimal(i)
  }

  /** A candidate is named by its buffer's name followed by its field's suffix. */
  lemma CandidateName(name: string, info: BufferInfo, f: Field)
    ensures Candidate(name, info, f).name == name + Suffix(f)
  {
  }

  /** Distinct fields have distinct name suffixes. */
  lemma SuffixesDistinct(f1: Field, f2: Field)
    requires f1 != f2
    ensures Suffix(f1) != Suffix(f2)
  {
    var s1, s2 := Suffix(f1), Suffix(f2);
    if f1.Min? && f2.Min? {
      assert s1[5..] == Decimal(f1.dim) && s2[5..] == Decimal(f2.dim);
      DecimalInjective(f1.dim, f2.dim);
    } else if f1.Extent? && f2.Extent? {
      assert s1[8..] == Decimal(f1.dim) && s2[8..] == Decimal(f2.dim);
      DecimalInjective(f1.dim, f2.dim);
    } else if f1.Stride? && f2.Stride? {
      assert s1[8..] == Decimal(f1.dim) && s2[8..] == Decimal(f2.dim);
      DecimalInjective(f1.dim, f2.dim);
    } else {
      assert |s1| >= 4 && |s2| >= 4;
      assert s1[1] != s2[1] || s1[2] != s2[2] || |s1| != |s2|;
    }
  }

  /** Two different fields of one buffer bind different symbols. */
  lemma CandidateNamesDistinct(name: string, info: BufferInfo, f1: Field, f2: Field)
    requires f1 != f2
    ensures Candidate(name, info, f1).name != Candidate(name, info, f2).name
  {
    CandidateName(name, info, f1);
    CandidateName(name, info, f2);
    SuffixesDistinct(f1, f2);
    assert (name + Suffix(f1))[|name|..] == Suffix(f1);
    assert (name + Suffix(f2))[|name|..] == Suffix(f2);
  }

  /** The lowering emits no field of a buffer twice. */
  lemma FieldsDistinct(dimensions: int)
    ensures forall i, j :: 0 <= i < j < |FieldsOf(dimensions)| ==> FieldsOf(dimensions)[i] != FieldsOf(dimensions)[j]
  {
    FieldsLayout(dimensions);
    var fs := FieldsOf(dimensions);
    forall i, j | 0 <= i < j < |fs| ensures fs[i] != fs[j] {
      if j < 5 {
        assert fs[i] == fs[..5][i] && fs[j] == fs[..5][j];
      } else if i < 5 {
        assert fs[i] == fs[..5][i];
      } else {
        assert (i - 5) % 3 != (j - 5) % 3 || (i - 5) / 3 != (j - 5) / 3;
      }
    }
  }

  /** The candidates of one buffer bind pairwise distinct symbols. */
  lemma BufferCandidateNamesDistinct(name: string, info: BufferInfo)
    ensures forall i, j :: 0 <= i < j < |BufferCandidates(name, info)| ==>
      BufferCandidates(name, info)[i].name != BufferCandidates(name, info)[j].name
  {
    var fs := FieldsOf(info.dimensions);
    BindingsAt(name, info, fs);
    FieldsDistinct(info.dimensions);
    forall i, j | 0 <= i < j < |BufferCandidates(name, info)|
      ensures BufferCandidates(name, info)[i].name != BufferCandidates(name, info)[j].name
    {
      CandidateNamesDistinct(name, info, fs[i], fs[j]);
    }
  }

  /** A dot after the first character of a suffix is always followed by a digit. */
  lemma SuffixDots(f: Field, j: nat)
    requires 1 <= j < |Suffix(f)| && Suffix(f)[j] == '.'
    ensures j + 1 < |Suffix(f)| && '0' <= Suffix(f)[j + 1] <= '9'
  {
    if f.Min? || f.Extent? || f.Stride? {
      var d := Decimal(f.dim);
      var head := if f.Min? then ".min." else if f.Extent? then ".extent." else ".stride.";
      assert Suffix(f) == head + d;
    }
  }

  /** A shorter-or-equal buffer name plus a suffix never spells a different buffer name plus a suffix. */
  lemma NamesApart(n1: string, f1: Field, n2: string, f2: Field)
    requires n1 != n2 && |n1| <= |n2|
    ensures n1 + Suffix(f1) != n2 + Suffix(f2)
  {
    var s1, s2 := Suffix(f1), Suffix(f2);
    var a, b := n1 + s1, n2 + s2;
    SuffixShape(f1);
    SuffixShape(f2);
    if |a| != |b| {
    } else if n2[..|n1|] != n1 {
      assert a[..|n1|] == n1 && b[..|n1|] == n2[..|n1|];
    } else {
      assert n2[..|n2|] == n2;
      var j := |n2| - |n1|;
      assert 1 <= j < |s1|;
      if s1[j] != '.' {
        assert a[|n2|] == s1[j] && b[|n2|] == '.';
      } else {
        SuffixDots(f1, j);
        assert a[|n2| + 1] == s1[j + 1] && b[|n2| + 1] == s2[1];
      }
    }
  }

  /** Candidates of two differently named buffers never bind the same symbol. */
  lemma CrossBufferDistinct(n1: string, i1: BufferInfo, f1: Field, n2: string, i2: BufferInfo, f2: Field)
    requires n1 != n2
    ensures Candidate(n1, i1, f1).name != Candidate(n2, i2, f2).name
  {
    CandidateName(n1, i1, f1);
    CandidateName(n2, i2, f2);
    if |n1| <= |n2| {
      NamesApart(n1, f1, n2, f2);
    } else {
      NamesApart(n2, f2, n1, f1);
    }
  }

  /** A walk over buffers with distinct names yields candidates with pairwise distinct names. */
  lemma {:induction false} CandidatesOfDistinct(es: seq<(string, BufferInfo)>)
    requires forall i, j :: 0 <= i < j < |es| ==> es[i].0 != es[j].0
    ensures forall i, j :: 0 <= i < j < |CandidatesOf(es)| ==> CandidatesOf(es)[i].name != CandidatesOf(es)[j].name
    decreases |es|
  {
    if es != [] {
      var init, last := es[..|es| - 1], es[|es| - 1];
      CandidatesOfDistinct(init);
      var front, back := CandidatesOf(init), BufferCandidates(last.0, last.1);
      var c := front + back;
      assert c == CandidatesOf(es);
      BufferCandidateNamesDistinct(last.0, last.1);
      forall i, j | 0 <= i < j < |c| ensures c[i].name != c[j].name {
        if j < |front| {
          assert c[i] == front[i] && c[j] == front[j];
        } else if i >= |front| {
          assert c[i] == back[i - |front|] && c[j] == back[j - |front|];
        } else {
          assert c[i] == front[i] && c[j] == back[j - |front|];
          CandidatesMembers(init, c[i]);
          var k, f :| 0 <= k < |init| && c[i] == Candidate(init[k].0, init[k].1, f);
          BindingsMembers(last.0, last.1, FieldsOf(last.1.dimensions), c[j]);
          var g :| c[j] == Candidate(last.0, last.1, g);
          assert init[k] == es[k];
          CrossBufferDistinct(init[k].0, init[k].1, f, last.0, last.1, g);
        }
      }
    }
  }

  /**
   * Every candidate the lowering produces binds a symbol no other candidate
   * binds, so each referenced symbol gets exactly one let.
   */
  lemma CandidateNamesUnique(buffers: map<string, BufferInfo>)
    ensures forall i, j :: 0 <= i < j < |CandidatesOf(Entries(buffers))| ==>
      CandidatesOf(Entries(buffers))[i].name != CandidatesOf(Entries(buffers))[j].name
  {
    var es := Entries(buffers);
    EntriesLayout(buffers);
    forall i, j | 0 <= i < j < |es| ensures es[i].0 != es[j].0 {
      BelowIrreflexive(es[i].0);
    }
    CandidatesOfDistinct(es);
  }
}

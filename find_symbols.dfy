/**
 * The buffer symbol finder: one walk over a statement that collects the
 * referenced symbol names and the buffers behind them.
 *
 * `FindBufferSymbols` is the walker, with the two fields it fills in place.
 * `Scan` is the same walk written as a fold over a `Found` value; the walker's
 * methods are proved to compute it. `RefsOf`, `NamesOf` and `InfosOf` say what
 * the walk collects without any state, and the lemmas at the end connect them
 * to `Scan`.
 */
module FindSymbols {
  import opened IR

  /** What the pass keeps per buffer: its handle expression and its rank. */
  datatype BufferInfo = BufferInfo(handle: Node, dimensions: int)

  /** The walker's two accumulators. */
  datatype Found = Found(symbols: set<string>, buffers: map<string, BufferInfo>)

  const NothingFound := Found({}, map[])

  /** The entry for a buffer parameter: a handle variable named after it, carrying it. */
  function ParamInfo(p: Parameter): BufferInfo
  {
    BufferInfo(Variable(p.name + ".buffer", p, NoBuffer), p.dimensions)
  }

  /** The entry for a buffer literal: a handle variable named after it, carrying it. */
  function ImageInfo(b: BufferLit): BufferInfo
  {
    BufferInfo(Variable(b.name + ".buffer", NoParameter, b), b.dimensions)
  }

  /**
   * An entry describes the buffer `k`: its handle is the variable `k.buffer`,
   * carrying the one defined buffer parameter or literal named `k`, and its
   * rank is that object's.
   */
  predicate Describes(k: string, info: BufferInfo)
  {
    info.handle.Variable? && info.handle.name == k + ".buffer" &&
    var p, b := info.handle.param, info.handle.image;
    (IsBufferParam(p) && !b.defined && p.name == k && info.dimensions == p.dimensions) ||
    (b.defined && !p.defined && b.name == k && info.dimensions == b.dimensions)
  }

  predicate WellKeyed(buffers: map<string, BufferInfo>)
  {
    forall k :: k in buffers ==> Describes(k, buffers[k])
  }

  /** One reference through a parameter (the pure form of `VisitParam`). */
  function AddParam(f: Found, refName: string, p: Parameter): Found
  {
    if IsBufferParam(p) then Found(f.symbols + {refName}, f.buffers[p.name := ParamInfo(p)]) else f
  }

  /** One reference through a buffer literal (the pure form of `VisitBuffer`). */
  function AddImage(f: Found, refName: string, b: BufferLit): Found
  {
    if b.defined then Found(f.symbols + {refName}, f.buffers[b.name := ImageInfo(b)]) else f
  }

  /** The references a load makes: `.host` and `.dev` through the parameter, then through the image. */
  function AddLoad(f: Found, name: string, b: BufferLit, p: Parameter): Found
  {
    AddImage(AddImage(AddParam(AddParam(f, name + ".host", p), name + ".dev", p), name + ".host", b), name + ".dev", b)
  }

  /** The references a store makes: `.host` and `.dev` through its parameter only. */
  function AddStore(f: Found, name: string, p: Parameter): Found
  {
    AddParam(AddParam(f, name + ".host", p), name + ".dev", p)
  }

  /** The walk as a fold: `f` is the state before visiting `n`, the result the state after. */
  ghost function Scan(n: Node, f: Found): Found
    decreases n, 1
  {
    match n
    case IntImm(_) => f
    case StringImm(_) => f
    case Variable(x, p, b) => AddImage(AddParam(f, x, p), x, b)
    case Load(x, index, b, p) => Scan(index, AddLoad(f, x, b, p))
    case Store(x, value, index, p) => Scan(index, Scan(value, AddStore(f, x, p)))
    case Call(_, args) => ScanAll(args, f)
    case LetStmt(_, value, body) => Scan(body, Scan(value, f))
    case AssertStmt(c, m) => Scan(m, Scan(c, f))
    case Block(a, b) => Scan(b, Scan(a, f))
    case Other(cs) => ScanAll(cs, f)
  }

  ghost function ScanAll(cs: seq<Node>, f: Found): Found
    decreases cs, 0
  {
    if cs == [] then f else ScanAll(cs[1..], Scan(cs[0], f))
  }

  // ---------------------------------------------------------------------
  // What the walk collects, stated without any state.
  // ---------------------------------------------------------------------

  function ParamRef(x: string, p: Parameter): set<string>
  {
    if IsBufferParam(p) then {x} else {}
  }

  function ImageRef(x: string, b: BufferLit): set<string>
  {
    if b.defined then {x} else {}
  }

  function ParamName(p: Parameter): set<string>
  {
    if IsBufferParam(p) then {p.name} else {}
  }

  function ImageName(b: BufferLit): set<string>
  {
    if b.defined then {b.name} else {}
  }

  function ParamEntry(p: Parameter): set<BufferInfo>
  {
    if IsBufferParam(p) then {ParamInfo(p)} else {}
  }

  function ImageEntry(b: BufferLit): set<BufferInfo>
  {
    if b.defined then {ImageInfo(b)} else {}
  }

  /**
   * The symbol names a tree references: a variable's own name, and the
   * `.host`/`.dev` names of a load (through its parameter or its image) or a
   * store (through its parameter), whenever that object is a buffer.
   */
  ghost function RefsOf(n: Node): set<string>
    decreases n, 1
  {
    match n
    case IntImm(_) => {}
    case StringImm(_) => {}
    case Variable(x, p, b) => ParamRef(x, p) + ImageRef(x, b)
    case Load(x, index, b, p) =>
      ParamRef(x + ".host", p) + ParamRef(x + ".dev", p) +
      ImageRef(x + ".host", b) + ImageRef(x + ".dev", b) + RefsOf(index)
    case Store(x, value, index, p) =>
      ParamRef(x + ".host", p) + ParamRef(x + ".dev", p) + RefsOf(value) + RefsOf(index)
    case Call(_, args) => RefsOfAll(args)
    case LetStmt(_, value, body) => RefsOf(value) + RefsOf(body)
    case AssertStmt(c, m) => RefsOf(c) + RefsOf(m)
    case Block(a, b) => RefsOf(a) + RefsOf(b)
    case Other(cs) => RefsOfAll(cs)
  }

  ghost function RefsOfAll(cs: seq<Node>): set<string>
    decreases cs, 0
  {
    if cs == [] then {} else RefsOf(cs[0]) + RefsOfAll(cs[1..])
  }

  /** The canonical names of the buffer parameters and literals a tree mentions. */
  ghost function NamesOf(n: Node): set<string>
    decreases n, 1
  {
    match n
    case IntImm(_) => {}
    case StringImm(_) => {}
    case Variable(_, p, b) => ParamName(p) + ImageName(b)
    case Load(_, index, b, p) => ParamName(p) + ImageName(b) + NamesOf(index)
    case Store(_, value, index, p) => ParamName(p) + NamesOf(value) + NamesOf(index)
    case Call(_, args) => NamesOfAll(args)
    case LetStmt(_, value, body) => NamesOf(value) + NamesOf(body)
    case AssertStmt(c, m) => NamesOf(c) + NamesOf(m)
    case Block(a, b) => NamesOf(a) + NamesOf(b)
    case Other(cs) => NamesOfAll(cs)
  }

  ghost function NamesOfAll(cs: seq<Node>): set<string>
    decreases cs, 0
  {
    if cs == [] then {} else NamesOf(cs[0]) + NamesOfAll(cs[1..])
  }

  /** The entries the buffer parameters and literals of a tree would make. */
  ghost function InfosOf(n: Node): set<BufferInfo>
    decreases n, 1
  {
    match n
    case IntImm(_) => {}
    case StringImm(_) => {}
    case Variable(_, p, b) => ParamEntry(p) + ImageEntry(b)
    case Load(_, index, b, p) => ParamEntry(p) + ImageEntry(b) + InfosOf(index)
    case Store(_, value, index, p) => ParamEntry(p) + InfosOf(value) + InfosOf(index)
    case Call(_, args) => InfosOfAll(args)
    case LetStmt(_, value, body) => InfosOf(value) + InfosOf(body)
    case AssertStmt(c, m) => InfosOf(c) + InfosOf(m)
    case Block(a, b) => InfosOf(a) + InfosOf(b)
    case Other(cs) => InfosOfAll(cs)
  }

  ghost function InfosOfAll(cs: seq<Node>): set<BufferInfo>
    decreases cs, 0
  {
    if cs == [] then {} else InfosOf(cs[0]) + InfosOfAll(cs[1..])
  }

  // ---------------------------------------------------------------------
  // The walker, updating its two fields in place.
  // ---------------------------------------------------------------------

  class FindBufferSymbols {
    var symbols: set<string>
    var buffers: map<string, BufferInfo>

    constructor ()
      ensures symbols == {} && buffers == map[]
    {
      symbols := {};
      buffers := map[];
    }

    function State(): Found
      reads this
    {
      Found(symbols, buffers)
    }

    /**
     * A reference `refName` through parameter `p`: only a defined buffer
     * parameter records the reference and (re)sets the entry under the
     * parameter's own name; anything else changes nothing.
     */
    method VisitParam(refName: string, p: Parameter)
      modifies this
      ensures IsBufferParam(p) ==>
        symbols == old(symbols) + {refName} && buffers == old(buffers)[p.name := ParamInfo(p)]
      ensures !IsBufferParam(p) ==> symbols == old(symbols) && buffers == old(buffers)
    {
      if p.defined && p.isBuffer {
        symbols := symbols + {refName};
        var name := p.name;
        buffers := buffers[name := BufferInfo(Variable(name + ".buffer", p, NoBuffer), p.dimensions)];
      }
    }

    /** A reference `refName` through buffer literal `b`, under the same rule. */
    method VisitBuffer(refName: string, b: BufferLit)
      modifies this
      ensures b.defined ==>
        symbols == old(symbols) + {refName} && buffers == old(buffers)[b.name := ImageInfo(b)]
      ensures !b.defined ==> symbols == old(symbols) && buffers == old(buffers)
    {
      if b.defined {
        symbols := symbols + {refName};
        var name := b.name;
        buffers := buffers[name := BufferInfo(Variable(name + ".buffer", NoParameter, b), b.dimensions)];
      }
    }

    /** Visits `n` and everything below it. */
    method Visit(n: Node)
      modifies this
      ensures State() == Scan(n, old(State()))
      decreases n, 1
    {
      match n
      case IntImm(_) =>
      case StringImm(_) =>
      case Variable(x, p, b) =>
        VisitParam(x, p);
        VisitBuffer(x, b);
      case Load(x, index, b, p) =>
        VisitParam(x + ".host", p);
        VisitParam(x + ".dev", p);
        VisitBuffer(x + ".host", b);
        VisitBuffer(x + ".dev", b);
        Visit(index);
      case Store(x, value, index, p) =>
        VisitParam(x + ".host", p);
        VisitParam(x + ".dev", p);
        Visit(value);
        Visit(index);
      case Call(_, args) =>
        VisitAll(n, args);
      case LetStmt(_, value, body) =>
        Visit(value);
        Visit(body);
      case AssertStmt(c, m) =>
        Visit(c);
        Visit(m);
      case Block(a, b) =>
        Visit(a);
        Visit(b);
      case Other(cs) =>
        VisitAll(n, cs);
    }

    /** Visits the children `cs` of `parent` in order. */
    method VisitAll(ghost parent: Node, cs: seq<Node>)
      requires forall c :: c in cs ==> c < parent
      modifies this
      ensures State() == ScanAll(cs, old(State()))
      decreases parent, 0
    {
      for i := 0 to |cs|
        invariant ScanAll(cs[i..], State()) == ScanAll(cs, old(State()))
      {
        assert cs[i..][1..] == cs[i + 1..];
        assert cs[i] in cs;
        Visit(cs[i]);
      }
      assert cs[|cs|..] == [];
    }
  }

  /** Runs the walker over a whole statement, starting from nothing. */
  method FindBuffers(s: Node) returns (found: Found)
    ensures found == Scan(s, NothingFound)
    ensures found.symbols == RefsOf(s)
    ensures found.buffers.Keys == NamesOf(s)
    ensures WellKeyed(found.buffers)
    ensures forall k :: k in found.buffers ==> found.buffers[k] in InfosOf(s)
  {
    var finder := new FindBufferSymbols();
    finder.Visit(s);
    found := finder.State();
    ScanCollects(s, NothingFound);
    ScanKeepsWellKeyed(s, NothingFound);
    ScanEntries(s, NothingFound);
  }

  // ---------------------------------------------------------------------
  // Lemmas connecting the fold to the stateless descriptions.
  // ---------------------------------------------------------------------

  /** The walk adds exactly the tree's referenced names and canonical buffer names. */
  lemma {:induction false} ScanCollects(n: Node, f: Found)
    ensures Scan(n, f).symbols == f.symbols + RefsOf(n)
    ensures Scan(n, f).buffers.Keys == f.buffers.Keys + NamesOf(n)
    decreases n, 1
  {
    match n
    case IntImm(_) =>
    case StringImm(_) =>
    case Variable(x, p, b) =>
    case Load(x, index, b, p) =>
      ScanCollects(index, AddLoad(f, x, b, p));
    case Store(x, value, index, p) =>
      var f1 := AddStore(f, x, p);
      ScanCollects(value, f1);
      ScanCollects(index, Scan(value, f1));
    case Call(_, args) =>
      ScanAllCollects(args, f);
    case LetStmt(_, value, body) =>
      ScanCollects(value, f);
      ScanCollects(body, Scan(value, f));
    case AssertStmt(c, m) =>
      ScanCollects(c, f);
      ScanCollects(m, Scan(c, f));
    case Block(a, b) =>
      ScanCollects(a, f);
      ScanCollects(b, Scan(a, f));
    case Other(cs) =>
      ScanAllCollects(cs, f);
  }

  lemma {:induction false} ScanAllCollects(cs: seq<Node>, f: Found)
    ensures ScanAll(cs, f).symbols == f.symbols + RefsOfAll(cs)
    ensures ScanAll(cs, f).buffers.Keys == f.buffers.Keys + NamesOfAll(cs)
    decreases cs, 0
  {
    if cs != [] {
      ScanCollects(cs[0], f);
      ScanAllCollects(cs[1..], Scan(cs[0], f));
    }
  }

  /** Every entry the walk writes describes the buffer it is filed under. */
  lemma {:induction false} ScanKeepsWellKeyed(n: Node, f: Found)
    requires WellKeyed(f.buffers)
    ensures WellKeyed(Scan(n, f).buffers)
    decreases n, 1
  {
    match n
    case IntImm(_) =>
    case StringImm(_) =>
    case Variable(x, p, b) =>
    case Load(x, index, b, p) =>
      ScanKeepsWellKeyed(index, AddLoad(f, x, b, p));
    case Store(x, value, index, p) =>
      var f1 := AddStore(f, x, p);
      ScanKeepsWellKeyed(value, f1);
      ScanKeepsWellKeyed(index, Scan(value, f1));
    case Call(_, args) =>
      ScanAllKeepsWellKeyed(args, f);
    case LetStmt(_, value, body) =>
      ScanKeepsWellKeyed(value, f);
      ScanKeepsWellKeyed(body, Scan(value, f));
    case AssertStmt(c, m) =>
      ScanKeepsWellKeyed(c, f);
      ScanKeepsWellKeyed(m, Scan(c, f));
    case Block(a, b) =>
      ScanKeepsWellKeyed(a, f);
      ScanKeepsWellKeyed(b, Scan(a, f));
    case Other(cs) =>
      ScanAllKeepsWellKeyed(cs, f);
  }

  lemma {:induction false} ScanAllKeepsWellKeyed(cs: seq<Node>, f: Found)
    requires WellKeyed(f.buffers)
    ensures WellKeyed(ScanAll(cs, f).buffers)
    decreases cs, 0
  {
    if cs != [] {
      ScanKeepsWellKeyed(cs[0], f);
      ScanAllKeepsWellKeyed(cs[1..], Scan(cs[0], f));
    }
  }

  /**
   * After the walk, an entry under a name the tree mentions is one the tree's
   * own buffer objects make; an entry under any other name is the one that was
   * there before.
   */
  lemma {:induction false} ScanEntries(n: Node, f: Found)
    ensures forall k :: k in Scan(n, f).buffers ==>
      if k in NamesOf(n) then Scan(n, f).buffers[k] in InfosOf(n)
      else k in f.buffers && Scan(n, f).buffers[k] == f.buffers[k]
    decreases n, 1
  {
    match n
    case IntImm(_) =>
    case StringImm(_) =>
    case Variable(x, p, b) =>
    case Load(x, index, b, p) =>
      ScanEntries(index, AddLoad(f, x, b, p));
    case Store(x, value, index, p) =>
      var f1 := AddStore(f, x, p);
      ScanEntries(value, f1);
      ScanEntries(index, Scan(value, f1));
    case Call(_, args) =>
      ScanAllEntries(args, f);
    case LetStmt(_, value, body) =>
      ScanEntries(value, f);
      ScanEntries(body, Scan(value, f));
    case AssertStmt(c, m) =>
      ScanEntries(c, f);
      ScanEntries(m, Scan(c, f));
    case Block(a, b) =>
      ScanEntries(a, f);
      ScanEntries(b, Scan(a, f));
    case Other(cs) =>
      ScanAllEntries(cs, f);
  }

  lemma {:induction false} ScanAllEntries(cs: seq<Node>, f: Found)
    ensures forall k :: k in ScanAll(cs, f).buffers ==>
      if k in NamesOfAll(cs) then ScanAll(cs, f).buffers[k] in InfosOfAll(cs)
      else k in f.buffers && ScanAll(cs, f).buffers[k] == f.buffers[k]
    decreases cs, 0
  {
    if cs != [] {
      ScanEntries(cs[0], f);
      ScanAllEntries(cs[1..], Scan(cs[0], f));
    }
  }
  /** Two walker states hold the same entry under `k`. */
  predicate SameEntry(f: Found, g: Found, k: string)
  {
    k in f.buffers && k in g.buffers && f.buffers[k] == g.buffers[k]
  }

  /**
   * Once a tree mentions the buffer `k`, the entry the walk leaves under `k`
   * is decided by the tree alone, whatever was filed there before: the
   * tree's own latest registration overwrites it. An entry two states
   * already agree on stays the same.
   */
  lemma {:induction false} ScanSettles(n: Node, f: Found, g: Found, k: string)
    requires k in NamesOf(n) || SameEntry(f, g, k)
    ensures SameEntry(Scan(n, f), Scan(n, g), k)
    decreases n, 1
  {
    match n
    case IntImm(_) =>
    case StringImm(_) =>
    case Variable(x, p, b) =>
    case Load(x, index, b, p) =>
      ScanSettles(index, AddLoad(f, x, b, p), AddLoad(g, x, b, p), k);
    case Store(x, value, index, p) =>
      var f1, g1 := AddStore(f, x, p), AddStore(g, x, p);
      if k in NamesOf(value) || SameEntry(f1, g1, k) {
        ScanSettles(value, f1, g1, k);
      }
      ScanSettles(index, Scan(value, f1), Scan(value, g1), k);
    case Call(_, args) =>
      ScanAllSettles(args, f, g, k);
    case LetStmt(_, value, body) =>
      if k in NamesOf(value) || SameEntry(f, g, k) {
        ScanSettles(value, f, g, k);
      }
      ScanSettles(body, Scan(value, f), Scan(value, g), k);
    case AssertStmt(c, m) =>
      if k in NamesOf(c) || SameEntry(f, g, k) {
        ScanSettles(c, f, g, k);
      }
      ScanSettles(m, Scan(c, f), Scan(c, g), k);
    case Block(a, b) =>
      if k in NamesOf(a) || SameEntry(f, g, k) {
        ScanSettles(a, f, g, k);
      }
      ScanSettles(b, Scan(a, f), Scan(a, g), k);
    case Other(cs) =>
      ScanAllSettles(cs, f, g, k);
  }

  lemma {:induction false} ScanAllSettles(cs: seq<Node>, f: Found, g: Found, k: string)
    requires k in NamesOfAll(cs) || SameEntry(f, g, k)
    ensures SameEntry(ScanAll(cs, f), ScanAll(cs, g), k)
    decreases cs, 0
  {
    if cs != [] {
      if k in NamesOf(cs[0]) || SameEntry(f, g, k) {
        ScanSettles(cs[0], f, g, k);
      }
      ScanAllSettles(cs[1..], Scan(cs[0], f), Scan(cs[0], g), k);
    }
  }

  /**
   * In a sequence of two statements, a buffer the second one mentions ends up
   * with the entry the second one registers on its own: a later registration
   * replaces an earlier one under the same name.
   */
  lemma LaterRegistrationWins(a: Node, b: Node, f: Found, k: string)
    requires k in NamesOf(b)
    ensures k in Scan(Block(a, b), f).buffers && k in Scan(b, NothingFound).buffers
    ensures Scan(Block(a, b), f).buffers[k] == Scan(b, NothingFound).buffers[k]
  {
    ScanSettles(b, Scan(a, f), NothingFound, k);
  }

  /**
   * Two references to buffer parameters that share a name: the entry is the
   * second parameter's, not the first's.
   */
  lemma SecondParameterWins(x: string, y: string, p1: Parameter, p2: Parameter)
    requires IsBufferParam(p1) && IsBufferParam(p2) && p1.name == p2.name
    ensures p1.name in Scan(Block(Variable(x, p1, NoBuffer), Variable(y, p2, NoBuffer)), NothingFound).buffers
    ensures Scan(Block(Variable(x, p1, NoBuffer), Variable(y, p2, NoBuffer)), NothingFound).buffers[p1.name] == ParamInfo(p2)
  {
    LaterRegistrationWins(Variable(x, p1, NoBuffer), Variable(y, p2, NoBuffer), NothingFound, p1.name);
  }
}

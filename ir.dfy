/**
 * The fragment of the compiler's intermediate representation that the
 * buffer-unpacking pass looks at: variable references, loads and stores that
 * may carry a buffer parameter or a buffer literal, calls, scoped lets,
 * assertions, sequencing blocks, and a catch-all node that only has children.
 * Expressions and statements share one datatype; their semantic types are not
 * modelled.
 */
module IR {

  /** A pipeline parameter, reduced to what the pass reads from it. */
  datatype Parameter = Parameter(defined: bool, isBuffer: bool, name: string, dimensions: int)

  /** A compile-time buffer literal; an undefined one means "no image attached". */
  datatype BufferLit = BufferLit(defined: bool, name: string, dimensions: int)

  /** The parameter slot of a node that carries no parameter. */
  const NoParameter := Parameter(false, false, "", 0)

  /** The image slot of a node that carries no buffer literal. */
  const NoBuffer := BufferLit(false, "", 0)

  /** A parameter names a buffer when it is defined and is a buffer parameter. */
  predicate IsBufferParam(p: Parameter)
  {
    p.defined && p.isBuffer
  }

  /**
   * The runtime entry points a call can name. Their meaning lives in the
   * runtime and is never interpreted here; `OtherExtern` covers every call
   * that already occurs in the input.
   */
  datatype Callee =
    | BufferGetHost
    | BufferGetDev
    | BufferGetElemSize
    | BufferGetHostDirty
    | BufferGetDevDirty
    | BufferGetMin
    | BufferGetExtent
    | BufferGetStride
    | BufferIsNotNull
    | ErrorBufferArgumentIsNull
    | OtherExtern(fname: string)

  datatype Node =
    | IntImm(intValue: int)
    | StringImm(text: string)
    | Variable(name: string, param: Parameter, image: BufferLit)
    | Load(name: string, index: Node, image: BufferLit, param: Parameter)
    | Store(name: string, value: Node, index: Node, param: Parameter)
    | Call(callee: Callee, args: seq<Node>)
    | LetStmt(name: string, value: Node, body: Node)
    | AssertStmt(condition: Node, message: Node)
    | Block(first: Node, rest: Node)
    | Other(children: seq<Node>)

  /** The number a string of decimal digits denotes, most significant digit first. */
  function DigitsValue(s: string): int
  {
    if s == [] then 0 else 10 * DigitsValue(s[..|s| - 1]) + (s[|s| - 1] as int - '0' as int)
  }

  /** The decimal text of a non-negative integer, without leading zeros. */
  function Decimal(n: nat): (r: string)
    ensures |r| >= 1
    ensures forall k :: 0 <= k < |r| ==> '0' <= r[k] <= '9'
    ensures n < 10 <==> |r| == 1
    decreases n
  {
    var digit := ['0' + (n % 10) as char];
    if n < 10 then digit else Decimal(n / 10) + digit
  }

  /**
   * The text is what the standard library's integer-to-string conversion
   * writes: its digits denote `n`, and it has no leading zero.
   */
  lemma {:induction false} DecimalValue(n: nat)
    ensures DigitsValue(Decimal(n)) == n
    ensures Decimal(n)[0] == '0' ==> n == 0
    decreases n
  {
    if n >= 10 {
      DecimalValue(n / 10);
      var init, r := Decimal(n / 10), Decimal(n);
      assert r[..|r| - 1] == init;
      assert r[0] == init[0];
    }
  }

  /** Distinct indices have distinct decimal texts. */
  lemma DecimalInjective(m: nat, n: nat)
    ensures Decimal(m) == Decimal(n) <==> m == n
  {
    DecimalValue(m);
    DecimalValue(n);
  }
}

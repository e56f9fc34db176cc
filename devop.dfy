/** Device-operation helpers shared by the drivers: the byte-order conversions,
    the argument checks and error-propagation macros (as the control flow they
    produce in the calling function), and the unrolled map-copy loop. */
module DevOp {
  import opened Errors

  // ---------------------------------------------------------------- byte order

  /** The n-th byte (0 = least significant) of a value. */
  function ByteAt(v: nat, n: nat): (b: nat)
    ensures b < 256
  {
    if n == 0 then v % 256 else ByteAt(v / 256, n - 1)
  }

  /** U16ECV: the two bytes of a 16-bit value exchanged. The argument is first
      cast to uint16_t, so only its low 16 bits count. */
  function U16ecv(value: int): (r: nat)
    ensures r < 0x1_0000
  {
    var v := value % 0x1_0000;
    (v % 0x100) * 0x100 + v / 0x100
  }

  /** U32ECV: the four bytes of a 32-bit value in reverse order. */
  function U32ecv(value: int): (r: nat)
    ensures r < 0x1_0000_0000
  {
    var v := value % 0x1_0000_0000;
    ByteAt(v, 0) * 0x100_0000 + ByteAt(v, 1) * 0x1_0000 + ByteAt(v, 2) * 0x100 + ByteAt(v, 3)
  }

  lemma ByteAtDecompose(v: nat)
    requires v < 0x1_0000_0000
    ensures v == ByteAt(v, 3) * 0x100_0000 + ByteAt(v, 2) * 0x1_0000 + ByteAt(v, 1) * 0x100 + ByteAt(v, 0)
  {
    var v1 := v / 256;
    var v2 := v1 / 256;
    var v3 := v2 / 256;
    assert v == v1 * 256 + v % 256 && v1 == v2 * 256 + v1 % 256 && v2 == v3 * 256 + v2 % 256;
    assert v3 < 256;
    assert ByteAt(v, 1) == v1 % 256;
    assert ByteAt(v, 2) == ByteAt(v1, 1) == v2 % 256;
    assert ByteAt(v, 3) == ByteAt(v1, 2) == ByteAt(v2, 1) == v3;
  }

  lemma ByteAtOfPacked(b0: nat, b1: nat, b2: nat, b3: nat)
    requires b0 < 256 && b1 < 256 && b2 < 256 && b3 < 256
    ensures var v := b3 * 0x100_0000 + b2 * 0x1_0000 + b1 * 0x100 + b0;
            ByteAt(v, 0) == b0 && ByteAt(v, 1) == b1 && ByteAt(v, 2) == b2 && ByteAt(v, 3) == b3
  {
    var v := b3 * 0x100_0000 + b2 * 0x1_0000 + b1 * 0x100 + b0;
    assert v / 256 == b3 * 0x1_0000 + b2 * 0x100 + b1;
    assert (v / 256) / 256 == b3 * 0x100 + b2;
    assert ((v / 256) / 256) / 256 == b3;
    assert ByteAt(v, 1) == ByteAt(v / 256, 0);
    assert ByteAt(v, 2) == ByteAt(v / 256, 1) == ByteAt((v / 256) / 256, 0);
    assert ByteAt(v, 3) == ByteAt(v / 256, 2) == ByteAt((v / 256) / 256, 1) == ByteAt(((v / 256) / 256) / 256, 0);
  }

  /** U16ECV exchanges the bytes: the high byte of the result is the low byte
      of the argument and the other way round. */
  lemma U16ecvBytes(v: int)
    ensures U16ecv(v) / 0x100 == (v % 0x1_0000) % 0x100
    ensures U16ecv(v) % 0x100 == (v % 0x1_0000) / 0x100
  {
  }

  /** Applying U16ECV twice gives back the 16-bit value. */
  lemma U16ecvInvolution(v: int)
    ensures U16ecv(U16ecv(v)) == v % 0x1_0000
  {
    var w := v % 0x1_0000;
    var r := U16ecv(v);
    assert r == (w % 0x100) * 0x100 + w / 0x100;
    assert r % 0x1_0000 == r;
    assert r % 0x100 == w / 0x100;
    assert r / 0x100 == w % 0x100;
  }

  /** U32ECV moves byte n to byte 3 - n. */
  lemma U32ecvBytes(v: int)
    ensures var w := v % 0x1_0000_0000;
            forall n | 0 <= n < 4 :: ByteAt(U32ecv(v), n) == ByteAt(w, 3 - n)
  {
    var w := v % 0x1_0000_0000;
    ByteAtOfPacked(ByteAt(w, 3), ByteAt(w, 2), ByteAt(w, 1), ByteAt(w, 0));
  }

  /** Applying U32ECV twice gives back the 32-bit value. */
  lemma U32ecvInvolution(v: int)
    ensures U32ecv(U32ecv(v)) == v % 0x1_0000_0000
  {
    var w := v % 0x1_0000_0000;
    var r := U32ecv(v);
    U32ecvBytes(v);
    U32ecvBytes(r);
    assert r % 0x1_0000_0000 == r;
    var rr := U32ecv(r);
    assert forall n | 0 <= n < 4 :: ByteAt(rr, n) == ByteAt(w, n);
    ByteAtDecompose(rr);
    ByteAtDecompose(w);
  }

  /** The documented examples: 0x1234 becomes 0x3412, 0x12345678 becomes 0x78563412. */
  lemma ByteSwapExamples()
    ensures U16ecv(0x1234) == 0x3412
    ensures U32ecv(0x1234_5678) == 0x7856_3412
  {
    assert ByteAt(0x1234_5678, 1) == 0x56;
    assert ByteAt(0x1234_5678, 2) == 0x34;
    assert ByteAt(0x1234_5678, 3) == 0x12;
  }

  // ------------------------------------------------- checks and error macros

  /** What a macro leaves the calling function to do next. */
  datatype Flow =
    | Continue              // fall through to the next statement
    | Return(code: int)     // `return code` from the calling function
    | Jump(code: int)       // `goto label` with the status variable holding `code`

  /** PARAM_CHECK: return E_INVALID_ARGUMENT when the condition does not hold. */
  function ParamCheck(holds: bool): (f: Flow)
    ensures f == Return(E_INVALID_ARGUMENT) <==> !holds
    ensures f == Continue <==> holds
  {
    if !holds then Return(E_INVALID_ARGUMENT) else Continue
  }

  /** PARAM_CHECK_CODE: return the given code when the condition does not hold. */
  function ParamCheckCode(holds: bool, code: int): (f: Flow)
    ensures f.Return? <==> !holds
    ensures f.Return? ==> f.code == code
    ensures f == Continue <==> holds
  {
    if !holds then Return(code) else Continue
  }

  /** PARAM_NOT_NULL: a pointer of value 0 (NULL) is an invalid argument. */
  function ParamNotNull(ptr: nat): (f: Flow)
    ensures f == Return(E_INVALID_ARGUMENT) <==> ptr == 0
    ensures f == Continue <==> ptr != 0
  {
    if ptr == 0 then Return(E_INVALID_ARGUMENT) else Continue
  }

  /** A callee that may be a null function pointer: `Null` when it is null,
      `Called(r)` with the result it returns when it is called. */
  datatype Callee = Null | Called(result: int)

  /** CALL_WITH_ERROR_RETURN: the callee's failure is returned at once. */
  function CallWithErrorReturn(result: int): (f: Flow)
    ensures f.Return? <==> Failed(result)
    ensures f.Return? ==> f.code == result
    ensures !f.Jump?
  {
    if Failed(result) then Return(result) else Continue
  }

  /** CALL_NULLABLE_WITH_ERROR: nothing happens for a null callee; otherwise the
      callee's failure is returned at once. */
  function CallNullableWithError(callee: Callee): (f: Flow)
    ensures callee.Null? ==> f == Continue
    ensures callee.Called? ==> (f.Return? <==> callee.result != ALL_OK)
    ensures f.Return? ==> callee.Called? && f.code == callee.result
    ensures !f.Jump?
  {
    match callee
    case Null => Continue
    case Called(r) => CallWithErrorReturn(r)
  }

  /** CALL_WITH_CODE_GOTO(hr, lab, ...): the result is stored in `hr` and a
      failure jumps to the label. Returns the new value of `hr` and the flow. */
  function CallWithCodeGoto(result: int): (r: (int, Flow))
    ensures r.0 == result
    ensures r.1 == Jump(result) <==> Failed(result)
    ensures r.1 == Continue <==> !Failed(result)
  {
    (result, if Failed(result) then Jump(result) else Continue)
  }

  /** CALL_NULLABLE_WITH_ERROR_EXIT(hr, lab, ...): the result is stored in `hr`,
      but the failure test reads the variable named `err`. `hrIsErr` says whether
      the caller passed `err` itself as `hr`; `hr` and `err` are the values of the
      two variables before the macro. Returns the new `hr` and the flow. */
  function CallNullableWithErrorExit(callee: Callee, hrIsErr: bool, hr: int, err: int): (r: (int, Flow))
    ensures callee.Null? ==> r == (hr, Continue)
    ensures callee.Called? ==> r.0 == callee.result
    ensures callee.Called? ==> (r.1.Jump? <==> (if hrIsErr then Failed(callee.result) else Failed(err)))
    ensures !r.1.Return?
  {
    match callee
    case Null => (hr, Continue)
    case Called(res) =>
      var tested := if hrIsErr then res else err;
      (res, if Failed(tested) then Jump(tested) else Continue)
  }

  /** When the caller's status variable is `err` itself (every use in the LCD
      drivers), the macro is a CALL_WITH_CODE_GOTO guarded by the null test. */
  lemma ExitMacroWithErrIsGoto(res: int, hr: int)
    ensures CallNullableWithErrorExit(Called(res), true, hr, hr) == CallWithCodeGoto(res)
  {
  }

  /** With any other status variable, a failing callee is not noticed as long
      as `err` holds ALL_OK. */
  lemma ExitMacroWithOtherVariableMissesFailure(res: int, hr: int)
    requires Failed(res)
    ensures CallNullableWithErrorExit(Called(res), false, hr, ALL_OK) == (res, Continue)
  {
  }

  // ---------------------------------------------------------- map-copy loop

  /** One pass of the macro's do-while on the uint32 counter `transfer_left`:
      0 leaves the loop, 8 and above map eight elements and subtract 8, and
      1..7 map that many elements and then subtract 8 all the same, wrapping. */
  function FuncMapNextLeft(left: nat): (r: nat)
    requires left < 0x1_0000_0000
    ensures r < 0x1_0000_0000
  {
    if left == 0 then 0 else (left + 0x1_0000_0000 - 8) % 0x1_0000_0000
  }

  /** Elements mapped by one pass. */
  function FuncMapPassCount(left: nat): nat
  {
    if left == 0 then 0 else if left >= 8 then 8 else left
  }

  /** The counter after k passes. */
  function FuncMapLeftAfter(n: nat, k: nat): (r: nat)
    requires n < 0x1_0000_0000
    ensures r < 0x1_0000_0000
  {
    if k == 0 then n else FuncMapNextLeft(FuncMapLeftAfter(n, k - 1))
  }

  /** Elements mapped (and pointer steps taken) in the first k passes. */
  function FuncMapMappedAfter(n: nat, k: nat): nat
    requires n < 0x1_0000_0000
  {
    if k == 0 then 0 else FuncMapMappedAfter(n, k - 1) + FuncMapPassCount(FuncMapLeftAfter(n, k - 1))
  }

  /** For a count that is not a multiple of 8 the counter keeps its residue
      modulo 8, so it never reaches 0 and the loop goes on: every pass maps at
      least one more element, past the n elements the caller owns. */
  lemma {:induction false} FuncMapNeverStops(n: nat, k: nat)
    requires n < 0x1_0000_0000 && n % 8 != 0
    ensures FuncMapLeftAfter(n, k) % 8 == n % 8
    ensures FuncMapLeftAfter(n, k) != 0
    ensures FuncMapMappedAfter(n, k) >= k
  {
    if k > 0 {
      FuncMapNeverStops(n, k - 1);
      FuncMapStepKeepsResidue(FuncMapLeftAfter(n, k - 1));
    }
  }

  /** One pass on a nonzero counter keeps its residue modulo 8. */
  lemma FuncMapStepKeepsResidue(l: nat)
    requires 0 < l < 0x1_0000_0000
    ensures FuncMapNextLeft(l) % 8 == l % 8
  {
    if l >= 8 {
      assert FuncMapNextLeft(l) == l - 8;
    } else {
      assert FuncMapNextLeft(l) == l + 0x1_0000_0000 - 8;
    }
  }

  /** For a multiple of 8 the loop stops after n / 8 passes, having mapped n elements. */
  lemma {:induction false} FuncMapStopsOnMultiples(n: nat, k: nat)
    requires n < 0x1_0000_0000 && n % 8 == 0 && k <= n / 8
    ensures FuncMapLeftAfter(n, k) == n - 8 * k
    ensures FuncMapMappedAfter(n, k) == 8 * k
  {
    if k > 0 {
      FuncMapStopsOnMultiples(n, k - 1);
    }
  }

  /** MEMCOPY_FUNCMAP(dst, src, n, type, func) for the counts on which it stops:
      element i of `src` becomes func of element i of `dst` (it reads through
      `dst` and writes through `src`), eight elements per pass. */
  method MemcopyFuncMap<T>(dst: array<T>, src: array<T>, n: nat, func: T -> T)
    requires n < 0x1_0000_0000 && n % 8 == 0
    requires n <= dst.Length && n <= src.Length
    modifies src
    ensures forall i | 0 <= i < n :: src[i] == func(old(dst[i]))
    ensures forall i | n <= i < src.Length :: src[i] == old(src[i])
  {
    var left := n;
    var p := 0;
    while left > 0
      invariant 0 <= left && left + p == n && p % 8 == 0
      invariant forall i | 0 <= i < p :: src[i] == func(old(dst[i]))
      invariant forall i | p <= i < src.Length :: src[i] == old(src[i])
      invariant forall i | p <= i < dst.Length :: dst[i] == old(dst[i])
    {
      var k := 0;
      while k < 8
        invariant 0 <= k <= 8 && p + k <= n
        invariant forall i | 0 <= i < p + k :: src[i] == func(old(dst[i]))
        invariant forall i | p + k <= i < src.Length :: src[i] == old(src[i])
        invariant forall i | p + k <= i < dst.Length :: dst[i] == old(dst[i])
      {
        var temp := dst[p + k];
        src[p + k] := func(temp);
        k := k + 1;
      }
      p := p + 8;
      left := left - 8;
    }
  }

  /** The evidently intended map-copy: any count, eight elements per pass and
      then the remainder, stopping after exactly n elements. */
  method MapCopy<T>(dst: array<T>, src: array<T>, n: nat, func: T -> T)
    requires n <= dst.Length && n <= src.Length
    modifies src
    ensures forall i | 0 <= i < n :: src[i] == func(old(dst[i]))
    ensures forall i | n <= i < src.Length :: src[i] == old(src[i])
  {
    var left := n;
    var p := 0;
    while left > 0
      invariant 0 <= left && left + p == n
      invariant forall i | 0 <= i < p :: src[i] == func(old(dst[i]))
      invariant forall i | p <= i < src.Length :: src[i] == old(src[i])
      invariant forall i | p <= i < dst.Length :: dst[i] == old(dst[i])
    {
      var pass := if left >= 8 then 8 else left;
      var k := 0;
      while k < pass
        invariant 0 <= k <= pass && p + k <= n
        invariant forall i | 0 <= i < p + k :: src[i] == func(old(dst[i]))
        invariant forall i | p + k <= i < src.Length :: src[i] == old(src[i])
        invariant forall i | p + k <= i < dst.Length :: dst[i] == old(dst[i])
      {
        var temp := dst[p + k];
        src[p + k] := func(temp);
        k := k + 1;
      }
      p := p + pass;
      left := left - pass;
    }
  }
}

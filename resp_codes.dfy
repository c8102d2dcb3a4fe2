/**
 * The response-code enumeration. The three constants are values; their `code` and
 * `desc` fields are mutable in the source (`setCode`, `setDesc`), so the fields of
 * all three constants live in one object, `RespCodeTable`.
 */
module RespCodes {
  import opened Nullable

  datatype RespCodeEnum = Success | ParamInvalid | Failed

  /** The constants in declaration order, as `values()` returns them. */
  function Values(): (vs: seq<RespCodeEnum>)
    ensures |vs| == 3
  {
    [Success, ParamInvalid, Failed]
  }

  /** Position of a constant in declaration order (`ordinal()`). */
  function Ordinal(e: RespCodeEnum): (k: nat)
    ensures k < |Values()| && Values()[k] == e
  {
    match e
    case Success => 0
    case ParamInvalid => 1
    case Failed => 2
  }

  /** The code each constant is declared with. */
  function DeclaredCode(e: RespCodeEnum): int
  {
    match e
    case Success => 100
    case ParamInvalid => 101
    case Failed => 200
  }

  /** The description each constant is declared with. */
  function DeclaredDesc(e: RespCodeEnum): string
  {
    match e
    case Success => "成功"
    case ParamInvalid => "参数格式异常"
    case Failed => "系统异常"
  }

  /** A code table: the current `code` of every constant. */
  ghost predicate Total<V>(m: map<RespCodeEnum, V>)
  {
    forall e: RespCodeEnum :: e in m
  }

  /** A map that has the three constants as keys is total. */
  lemma TotalByCases<V>(m: map<RespCodeEnum, V>)
    requires Success in m && ParamInvalid in m && Failed in m
    ensures Total(m)
  {
    forall e: RespCodeEnum ensures e in m {
      match e
      case Success =>
      case ParamInvalid =>
      case Failed =>
    }
  }

  /** No two constants share a code. */
  ghost predicate Distinct(codes: map<RespCodeEnum, int>)
    requires Total(codes)
  {
    forall e1: RespCodeEnum, e2: RespCodeEnum :: e1 != e2 ==> codes[e1] != codes[e2]
  }

  function DeclaredCodes(): (codes: map<RespCodeEnum, int>)
    ensures Total(codes) && forall e: RespCodeEnum :: codes[e] == DeclaredCode(e)
  {
    var codes := map[Success := DeclaredCode(Success), ParamInvalid := DeclaredCode(ParamInvalid),
                     Failed := DeclaredCode(Failed)];
    TotalByCases(codes);
    codes
  }

  /**
   * The stream filter / findFirst of `valueOf`: the first constant of `es` whose
   * code equals `c`, or `None`; a `null` argument matches nothing.
   */
  function FirstWithCode(codes: map<RespCodeEnum, int>, es: seq<RespCodeEnum>, c: Option<int>): (r: Option<RespCodeEnum>)
    requires Total(codes)
    ensures r.None? <==> forall k :: 0 <= k < |es| ==> Some(codes[es[k]]) != c
    ensures r.Some? ==> exists k :: 0 <= k < |es| && es[k] == r.value && Some(codes[r.value]) == c &&
                          forall j :: 0 <= j < k ==> Some(codes[es[j]]) != c
  {
    if es == [] then None
    else if Some(codes[es[0]]) == c then Some(es[0])
    else
      var r := FirstWithCode(codes, es[1..], c);
      if r.Some? then
        ghost var k :| 0 <= k < |es[1..]| && es[1..][k] == r.value && Some(codes[r.value]) == c &&
                       forall j :: 0 <= j < k ==> Some(codes[es[1..][j]]) != c;
        assert es[k + 1] == r.value && forall j :: 0 <= j < k + 1 ==> Some(codes[es[j]]) != c;
        r
      else r
  }

  /** `FirstWithCode` over `Values()`, restated in terms of declaration order. */
  lemma FirstWithCodeInOrder(codes: map<RespCodeEnum, int>, c: Option<int>)
    requires Total(codes)
    ensures var r := FirstWithCode(codes, Values(), c);
            (r.None? <==> forall e: RespCodeEnum :: Some(codes[e]) != c) &&
            (r.Some? ==> Some(codes[r.value]) == c &&
                         forall e: RespCodeEnum :: Ordinal(e) < Ordinal(r.value) ==> Some(codes[e]) != c)
  {
    var r := FirstWithCode(codes, Values(), c);
    if forall e: RespCodeEnum :: Some(codes[e]) != c {
      assert forall k :: 0 <= k < |Values()| ==> Some(codes[Values()[k]]) != c;
    }
    if r.None? {
      forall e: RespCodeEnum ensures Some(codes[e]) != c {
        assert Values()[Ordinal(e)] == e;
      }
    }
    if r.Some? {
      var k :| 0 <= k < |Values()| && Values()[k] == r.value &&
               forall j :: 0 <= j < k ==> Some(codes[Values()[j]]) != c;
      assert Values()[Ordinal(r.value)] == r.value;
      forall e: RespCodeEnum | Ordinal(e) < Ordinal(r.value)
        ensures Some(codes[e]) != c
      {
        assert Values()[Ordinal(e)] == e;
      }
    }
  }

  /** With distinct codes, looking up a constant's own code gives that constant back. */
  lemma {:induction false} FirstWithCodeOfMember(codes: map<RespCodeEnum, int>, es: seq<RespCodeEnum>, e: RespCodeEnum)
    requires Total(codes) && Distinct(codes) && e in es
    ensures FirstWithCode(codes, es, Some(codes[e])) == Some(e)
  {
    var r := FirstWithCode(codes, es, Some(codes[e]));
    var k :| 0 <= k < |es| && es[k] == e;
    assert r.Some?;
    assert codes[r.value] == codes[e];
  }

  /** The declared codes 100, 101 and 200 are pairwise distinct. */
  lemma DeclaredCodesDistinct()
    ensures Distinct(DeclaredCodes())
    ensures DeclaredCode(Success) == 100 && DeclaredCode(ParamInvalid) == 101 && DeclaredCode(Failed) == 200
  {
  }

  /**
   * `setCode` can give two constants the same code; `valueOf` then returns the one
   * declared first, and the round trip fails for the other.
   */
  lemma SetCodeCanBreakRoundTrip()
    ensures var codes := DeclaredCodes()[ParamInvalid := 100];
            !Distinct(codes) &&
            FirstWithCode(codes, Values(), Some(codes[ParamInvalid])) == Some(Success)
  {
    var codes := DeclaredCodes()[ParamInvalid := 100];
    assert codes[Success] == codes[ParamInvalid];
    assert codes[Values()[0]] == 100;
  }

  /** The current `code` and `desc` fields of the three constants. */
  class RespCodeTable {
    var codes: map<RespCodeEnum, int>
    var descs: map<RespCodeEnum, string>

    ghost predicate Valid()
      reads this
    {
      Total(codes) && Total(descs)
    }

    /** Class initialisation: every constant gets its declared code and description. */
    constructor ()
      ensures Valid()
      ensures forall e: RespCodeEnum :: codes[e] == DeclaredCode(e) && descs[e] == DeclaredDesc(e)
      ensures Distinct(codes)
    {
      codes := DeclaredCodes();
      var ds := map[Success := DeclaredDesc(Success), ParamInvalid := DeclaredDesc(ParamInvalid),
                    Failed := DeclaredDesc(Failed)];
      TotalByCases(ds);
      descs := ds;
      DeclaredCodesDistinct();
    }

    function GetCode(e: RespCodeEnum): int
      requires Valid()
      reads this
    {
      codes[e]
    }

    function GetDesc(e: RespCodeEnum): string
      requires Valid()
      reads this
    {
      descs[e]
    }

    /** `equalCode`: holds exactly when `respCode` is non-null and equal to the constant's code. */
    function EqualCode(e: RespCodeEnum, respCode: Option<int>): (b: bool)
      requires Valid()
      reads this
      ensures b <==> respCode.Some? && respCode.value == GetCode(e)
    {
      Some(codes[e]) == respCode
    }

    /**
     * `valueOf(Integer)`: the first constant in declaration order whose code is
     * `respCode`, or `null` when none is.
     */
    function ValueOf(respCode: Option<int>): (r: Option<RespCodeEnum>)
      requires Valid()
      reads this
      ensures r.Some? ==> EqualCode(r.value, respCode)
      ensures r.Some? ==> forall e: RespCodeEnum :: Ordinal(e) < Ordinal(r.value) ==> respCode != Some(codes[e])
      ensures r.None? <==> forall e: RespCodeEnum :: respCode != Some(codes[e])
    {
      FirstWithCodeInOrder(codes, respCode);
      FirstWithCode(codes, Values(), respCode)
    }

    /** Round trip: while the codes are distinct, `valueOf(e.getCode()) == e`. */
    lemma ValueOfGetCode(e: RespCodeEnum)
      requires Valid() && Distinct(codes)
      ensures ValueOf(Some(GetCode(e))) == Some(e)
    {
      FirstWithCodeOfMember(codes, Values(), e);
    }

    /** `setCode`: changes this constant's code and nothing else. */
    method SetCode(e: RespCodeEnum, code: int)
      requires Valid()
      modifies this
      ensures Valid()
      ensures codes == old(codes)[e := code] && descs == old(descs)
      ensures old(Distinct(codes)) && (forall o: RespCodeEnum :: o != e ==> old(codes)[o] != code) ==> Distinct(codes)
    {
      codes := codes[e := code];
    }

    /** `setDesc`: changes this constant's description and nothing else. */
    method SetDesc(e: RespCodeEnum, desc: string)
      requires Valid()
      modifies this
      ensures Valid()
      ensures descs == old(descs)[e := desc] && codes == old(codes)
    {
      descs := descs[e := desc];
    }
  }
}

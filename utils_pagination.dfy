/**
 * The continuation helpers of the search client: the "more pages" flag, the
 * next cursor and the stop predicate. All three are total over any decoded
 * JSON value.
 */
module Pagination {
  import opened PyRuntime

  /**
   * What one candidate value says about "more pages": a bool as it is, an int
   * as `!= 0`; a value of any other type says nothing.
   */
  function FlagSignal(v: Json): (r: Option<bool>)
    ensures r.Some? <==> IsInt(v)
    ensures r.Some? ==> r.value == Truthy(v)
  {
    if v.JBool? then Some(v.b)
    else if v.JInt? then Some(v.i != 0)
    else None
  }

  /**
   * `get_has_more_flag`: the top-level `hasMore` first; when that is not an
   * int, `data.has_more or data.hasMore`.
   */
  function HasMoreFlag(payload: Json): (r: bool)
    ensures !payload.JMap? ==> !r
    ensures payload.JMap? && IsInt(Get(payload.entries, "hasMore"))
            ==> r == Truthy(Get(payload.entries, "hasMore"))
    ensures r ==> payload.JMap? && (Truthy(Get(payload.entries, "hasMore")) || NestedCandidateTruthy(payload.entries))
  {
    if !payload.JMap? then false
    else
      match FlagSignal(Get(payload.entries, "hasMore"))
      case Some(flag) => flag
      case None =>
        var data := Get(payload.entries, "data");
        if data.JMap? then
          var nested := FirstTruthy([Get(data.entries, "has_more"), Get(data.entries, "hasMore")]);
          FlagSignal(nested) == Some(true)
        else false
  }

  /** Whether `data` is a dict holding a truthy `has_more` or `hasMore`. */
  ghost predicate NestedCandidateTruthy(payload: Dict) {
    var data := Get(payload, "data");
    data.JMap? && (Truthy(Get(data.entries, "has_more")) || Truthy(Get(data.entries, "hasMore")))
  }

  /** `payload` without the given key, keeping the order of the rest. */
  function WithoutKey(d: Dict, key: string): (r: Dict)
    ensures key !in Keys(r)
    ensures forall k :: k != key ==> Lookup(r, k) == Lookup(d, k)
  {
    if d == [] then []
    else if d[0].0 == key then WithoutKey(d[1..], key)
    else
      var rest := WithoutKey(d[1..], key);
      assert Keys([d[0]] + rest) == [d[0].0] + Keys(rest);
      [d[0]] + rest
  }

  /**
   * A top-level `hasMore` that is not a bool or an int is ignored: the flag is
   * what it would be if the key were absent.
   */
  lemma TopLevelNonIntIgnored(payload: Dict)
    requires !IsInt(Get(payload, "hasMore"))
    ensures HasMoreFlag(JMap(payload)) == HasMoreFlag(JMap(WithoutKey(payload, "hasMore")))
  {
    var rest := WithoutKey(payload, "hasMore");
    LookupSpec(rest, "hasMore");
    assert Get(rest, "data") == Get(payload, "data");
  }

  /**
   * A falsy `data.has_more` (0, false, absent) falls through to
   * `data.hasMore`; a truthy one that is not an int hides `data.hasMore`.
   */
  lemma NestedFallThrough(payload: Dict)
    requires !IsInt(Get(payload, "hasMore"))
    requires Get(payload, "data").JMap?
    ensures var data := Get(payload, "data").entries;
            !Truthy(Get(data, "has_more")) ==> HasMoreFlag(JMap(payload)) == (FlagSignal(Get(data, "hasMore")) == Some(true))
    ensures var data := Get(payload, "data").entries;
            Truthy(Get(data, "has_more")) && !IsInt(Get(data, "has_more")) ==> !HasMoreFlag(JMap(payload))
    ensures var data := Get(payload, "data").entries;
            Truthy(Get(data, "has_more")) && IsInt(Get(data, "has_more")) ==> HasMoreFlag(JMap(payload))
  {
  }

  lemma HasMoreFlagExamples()
    ensures HasMoreFlag(JMap([("hasMore", JInt(1))]))
    ensures !HasMoreFlag(JMap([("hasMore", JInt(0))]))
    ensures !HasMoreFlag(JMap([]))
    ensures HasMoreFlag(JMap([("data", JMap([("has_more", JBool(true))]))]))
    ensures HasMoreFlag(JMap([("data", JMap([("has_more", JInt(0)), ("hasMore", JInt(1))]))]))
    ensures !HasMoreFlag(JMap([("data", JMap([("has_more", JStr("yes")), ("hasMore", JBool(true))]))]))
  {
  }

  /** The cursor one candidate value yields: an int as it is, an all-digit string parsed. */
  function CursorValue(v: Json): (r: Option<Json>)
    ensures r.Some? <==> IsInt(v) || (v.JStr? && IsDigits(v.s))
    ensures IsInt(v) ==> r == Some(v)
    ensures v.JStr? && IsDigits(v.s) ==> r == Some(JInt(DecimalValue(v.s))) && r.value.i >= 0
  {
    if IsInt(v) then Some(v)
    else if v.JStr? && IsDigits(v.s) then Some(JInt(DecimalValue(v.s)))
    else None
  }

  /** `get_next_cursor`: the top-level `cursor` first, then `data.cursor`. */
  function NextCursor(payload: Json): (r: Option<Json>)
    ensures r.Some? ==> payload.JMap? && IsInt(r.value)
    ensures payload.JMap? && CursorValue(Get(payload.entries, "cursor")).Some?
            ==> r == CursorValue(Get(payload.entries, "cursor"))
    ensures r.Some? && CursorValue(Get(payload.entries, "cursor")).None?
            ==> Get(payload.entries, "data").JMap?
                && r == CursorValue(Get(Get(payload.entries, "data").entries, "cursor"))
    ensures payload.JMap? && CursorValue(Get(payload.entries, "cursor")).None?
            ==> r == (if Get(payload.entries, "data").JMap?
                      then CursorValue(Get(Get(payload.entries, "data").entries, "cursor"))
                      else None)
  {
    if !payload.JMap? then None
    else
      match CursorValue(Get(payload.entries, "cursor"))
      case Some(c) => Some(c)
      case None =>
        var data := Get(payload.entries, "data");
        if data.JMap? then CursorValue(Get(data.entries, "cursor")) else None
  }

  /** A string cursor that is not all digits ("abc", "-5", "") yields nothing at its position. */
  lemma NonDigitStringCursor(s: string)
    requires !IsDigits(s)
    ensures NextCursor(JMap([("cursor", JStr(s))])) == None
    ensures NextCursor(JMap([("data", JMap([("cursor", JStr(s))]))])) == None
  {
    LookupSingle("cursor", JStr(s), "cursor");
    LookupSingle("cursor", JStr(s), "data");
    LookupSingle("data", JMap([("cursor", JStr(s))]), "cursor");
    LookupSingle("data", JMap([("cursor", JStr(s))]), "data");
  }

  /** A cursor written as a decimal string reads back as the same int, at either position. */
  lemma DecimalCursorRoundTrip(n: nat)
    ensures NextCursor(JMap([("cursor", JStr(DecimalString(n)))])) == Some(JInt(n))
    ensures NextCursor(JMap([("data", JMap([("cursor", JStr(DecimalString(n)))]))])) == Some(JInt(n))
  {
    DecimalRoundTrip(n);
    var c := JStr(DecimalString(n));
    LookupSingle("cursor", c, "cursor");
    LookupSingle("data", JMap([("cursor", c)]), "cursor");
    LookupSingle("data", JMap([("cursor", c)]), "data");
  }

  lemma NextCursorExamples()
    ensures NextCursor(JMap([("cursor", JInt(30))])) == Some(JInt(30))
    ensures NextCursor(JMap([("cursor", JStr("30"))])) == Some(JInt(30))
    ensures NextCursor(JMap([("cursor", JStr("abc"))])) == None
    ensures NextCursor(JMap([("cursor", JBool(true))])) == Some(JBool(true))
  {
    DecimalCursorRoundTrip(30);
    assert DecimalString(30) == "30";
    assert !IsAsciiDigit("abc"[0]);
    NonDigitStringCursor("abc");
  }

  /** `should_continue_pagination`: another page is wanted exactly below the limit and with more pages signalled. */
  function ShouldContinue(collectedCount: int, maxItems: int, hasMoreFlag: bool): (r: bool)
    ensures r <==> collectedCount < maxItems && hasMoreFlag
  {
    if collectedCount >= maxItems then false
    else if !hasMoreFlag then false
    else true
  }
}

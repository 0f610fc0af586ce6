/**
 * `intArrayToString`: the organizer-id list written as array text.
 *
 * The source writes "[", the decimal forms joined by ",", and then closes with
 * "[]" rather than "]". `IntArrayText` is that text as written; `JsonIntArrayText`
 * is the JSON array of section 5 of RFC 8259 the function is meant to write.
 * `ParseJsonIntArray` reads JSON integer arrays (without whitespace) and tells
 * the two apart.
 */
module IntArray {
  import opened Wrappers
  import opened Text
  import opened Decimal

  /** The decimal forms of the elements, in order. */
  function Decimals(arr: seq<int>): (r: seq<string>)
    ensures |r| == |arr|
    ensures forall i :: 0 <= i < |arr| ==> r[i] == DecimalString(arr[i])
  {
    seq(|arr|, i requires 0 <= i < |arr| => DecimalString(arr[i]))
  }

  /** The text `intArrayToString` returns, as written: note the closing "[]". */
  function IntArrayText(arr: seq<int>): string
  {
    "[" + Join(Decimals(arr), ',') + "[]"
  }

  /**
   * `intArrayToString`: fills a string array by index with the decimal form of
   * each element, then joins it between "[" and the closing "[]".
   */
  method IntArrayToString(arr: seq<int>) returns (s: string)
    ensures s == IntArrayText(arr)
  {
    var strArr := new string[|arr|];
    for i := 0 to |arr|
      invariant forall k :: 0 <= k < i ==> strArr[k] == DecimalString(arr[k])
    {
      strArr[i] := DecimalString(arr[i]);
    }
    assert strArr[..] == Decimals(arr);
    s := "[" + Join(strArr[..], ',') + "[]";
  }

  lemma {:induction false} DecimalsHaveNo(arr: seq<int>, c: char)
    requires c != '-' && !IsDigit(c)
    ensures forall i :: 0 <= i < |Decimals(arr)| ==> c !in Decimals(arr)[i]
  {
    forall i | 0 <= i < |arr| ensures c !in Decimals(arr)[i] {
      DecimalChars(arr[i], c);
    }
  }

  /**
   * Shape of the output: it opens with "[", closes with the two characters "[]"
   * (so the character before the final ']' is '[', never a digit), and holds
   * exactly one comma between neighbouring elements.
   */
  lemma {:induction false} IntArrayTextShape(arr: seq<int>)
    ensures var s := IntArrayText(arr);
      |s| >= 3 && s[0] == '[' && s[|s| - 2..] == "[]" &&
      CountChar(s, ',') == if |arr| == 0 then 0 else |arr| - 1
  {
    var d := Decimals(arr);
    DecimalsHaveNo(arr, ',');
    JoinSeparatorCount(d, ',');
    CountCharAppend("[" + Join(d, ','), "[]", ',');
    CountCharAppend("[", Join(d, ','), ',');
  }

  /** The empty list is written "[[]". */
  lemma {:induction false} IntArrayTextEmpty()
    ensures IntArrayText([]) == "[[]"
  {
  }

  /**
   * Element order: for a non-empty list, the text between the opening "[" and
   * the closing "[]" splits at its commas into the decimal forms of the
   * elements, in input order, each of which reads back as that element.
   */
  lemma {:induction false} IntArrayTextElements(arr: seq<int>)
    requires |arr| >= 1
    ensures var s := IntArrayText(arr);
      var pieces := Split(s[1..|s| - 2], ',');
      |pieces| == |arr| &&
      forall i :: 0 <= i < |arr| ==> pieces[i] == DecimalString(arr[i]) && ParseInt(pieces[i]) == Some(arr[i])
  {
    var s := IntArrayText(arr);
    assert s[1..|s| - 2] == Join(Decimals(arr), ',');
    DecimalsHaveNo(arr, ',');
    SplitJoin(Decimals(arr), ',');
    forall i | 0 <= i < |arr| ensures ParseInt(DecimalString(arr[i])) == Some(arr[i]) {
      DecimalRoundTrip(arr[i]);
    }
  }

  /** Reads each piece as a JSON integer; None as soon as one piece is not. */
  function ParseInts(pieces: seq<string>): (r: Option<seq<int>>)
    ensures r.Some? ==> |r.value| == |pieces|
  {
    if pieces == [] then Some([])
    else
      match ParseInt(pieces[0])
      case None => None
      case Some(x) =>
        match ParseInts(pieces[1..])
        case None => None
        case Some(xs) => Some([x] + xs)
  }

  /**
   * Reads a JSON array of integers without whitespace: "[]", or "[" then
   * integers separated by "," then "]".
   */
  function ParseJsonIntArray(s: string): (r: Option<seq<int>>)
  {
    if |s| < 2 || s[0] != '[' || s[|s| - 1] != ']' then None
    else if |s| == 2 then Some([])
    else ParseInts(Split(s[1..|s| - 1], ','))
  }

  /** The array text the function is meant to write: a JSON array. */
  function JsonIntArrayText(arr: seq<int>): string
  {
    "[" + Join(Decimals(arr), ',') + "]"
  }

  lemma {:induction false} ParseIntsDecimals(arr: seq<int>)
    ensures ParseInts(Decimals(arr)) == Some(arr)
  {
    if arr != [] {
      DecimalRoundTrip(arr[0]);
      assert Decimals(arr)[1..] == Decimals(arr[1..]);
      ParseIntsDecimals(arr[1..]);
      assert [arr[0]] + arr[1..] == arr;
    }
  }

  /** The corrected text reads back as the same list. */
  lemma {:induction false} JsonIntArrayRoundTrip(arr: seq<int>)
    ensures ParseJsonIntArray(JsonIntArrayText(arr)) == Some(arr)
  {
    var s := JsonIntArrayText(arr);
    if arr != [] {
      var d := Decimals(arr);
      assert s[1..|s| - 1] == Join(d, ',');
      assert |DecimalString(arr[0])| >= 1;
      assert |s| > 2 by {
        if |arr| == 1 { assert Join(d, ',') == d[0]; }
        else { assert |Join(d, ',')| >= |d[0]|; }
      }
      DecimalsHaveNo(arr, ',');
      SplitJoin(d, ',');
      ParseIntsDecimals(arr);
    }
  }

  /** The as-written text differs from the JSON text only by a '[' before the final ']'. */
  lemma {:induction false} IntArrayTextVsJson(arr: seq<int>)
    ensures var j := JsonIntArrayText(arr);
      IntArrayText(arr) == j[..|j| - 1] + "[" + "]"
  {
    var j := JsonIntArrayText(arr);
    assert j[..|j| - 1] == "[" + Join(Decimals(arr), ',');
  }

  /** A piece ending in '[' is not an integer. */
  lemma {:induction false} NotIntWithBracket(x: string)
    ensures ParseInt(x + "[") == None
  {
    var y := x + "[";
    assert y[|y| - 1] == '[';
    if y[0] == '-' {
      assert y[1..][|y| - 2] == '[';
      assert !AllDigits(y[1..]);
    } else {
      assert !AllDigits(y);
    }
  }

  lemma {:induction false} ParseIntsLastFails(pieces: seq<string>)
    requires |pieces| >= 1 && ParseInt(pieces[|pieces| - 1]) == None
    ensures ParseInts(pieces) == None
  {
    if |pieces| > 1 {
      ParseIntsLastFails(pieces[1..]);
    }
  }

  /** The pieces between the opening "[" and the final "]" of the as-written text never all read as integers. */
  lemma {:induction false} BracketPiecesNotInts(arr: seq<int>)
    ensures ParseInts(Split(Join(Decimals(arr), ',') + "[", ',')) == None
  {
    var d := Decimals(arr);
    var n := |arr|;
    if n == 0 {
      assert Join(d, ',') + "[" == "[";
      assert Split("[", ',') == ["["];
      NotIntWithBracket([]);
    } else {
      var q := d[..n - 1] + [d[n - 1] + "["];
      JoinAppendLast(d, ',', "[");
      DecimalsHaveNo(arr, ',');
      assert forall i :: 0 <= i < |q| ==> ',' !in q[i] by {
        forall i | 0 <= i < |q| ensures ',' !in q[i] {
          if i == n - 1 { assert q[i] == d[n - 1] + "["; }
        }
      }
      SplitJoin(q, ',');
      NotIntWithBracket(d[n - 1]);
      ParseIntsLastFails(q);
    }
  }

  /**
   * The defect: no list at all is written as a JSON array, so the organizer
   * list the request body carries is never a well-formed JSON array.
   */
  lemma {:induction false} IntArrayTextIsNeverJson(arr: seq<int>)
    ensures ParseJsonIntArray(IntArrayText(arr)) == None
  {
    var s := IntArrayText(arr);
    assert |s| > 2 && s[0] == '[' && s[|s| - 1] == ']';
    assert s[1..|s| - 1] == Join(Decimals(arr), ',') + "[";
    BracketPiecesNotInts(arr);
  }
}

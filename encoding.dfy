/**
 * The textual form of a position: the coordinates rendered in decimal and
 * joined by commas, in draw order. Decode is the partner the encoding is
 * proved against; the service itself never decodes.
 */
module Encoding {
  import opened Wrappers
  import Decimal
  import Strings

  const Separator: char := ','

  /** The decimal rendering of every coordinate, in the same order. */
  function Fields(nums: seq<int>): (fields: seq<string>)
    ensures |fields| == |nums|
    ensures forall k :: 0 <= k < |fields| ==> fields[k] != "" && Separator !in fields[k]
  {
    seq(|nums|, i requires 0 <= i < |nums| => Decimal.Itoa(nums[i]))
  }

  /** The position text Default builds from a draw. */
  function Encode(nums: seq<int>): (s: string)
    ensures s == "" <==> |nums| == 0
    ensures |nums| > 0 ==> Decimal.Itoa(nums[0]) <= s
  {
    Strings.Join(Fields(nums), Separator)
  }

  /** Parses every field, failing if any field is not an integer. */
  function ParseFields(fields: seq<string>): (r: Option<seq<int>>)
    ensures r.Some? ==> |r.value| == |fields|
  {
    if |fields| == 0 then Some([])
    else
      match Decimal.Atoi(fields[0])
      case None => None
      case Some(n) =>
        match ParseFields(fields[1..])
        case None => None
        case Some(ns) => Some([n] + ns)
  }

  /** Splits a position text on commas and parses each field. */
  function Decode(s: string): Option<seq<int>> {
    ParseFields(Strings.Split(s, Separator))
  }

  lemma {:induction false} ParseFieldsOfFields(nums: seq<int>)
    ensures ParseFields(Fields(nums)) == Some(nums)
  {
    if |nums| > 0 {
      Decimal.AtoiItoa(nums[0]);
      assert Fields(nums)[1..] == Fields(nums[1..]);
      ParseFieldsOfFields(nums[1..]);
      assert [nums[0]] + nums[1..] == nums;
    }
  }

  /** Splitting a non-empty draw's text on commas gives each coordinate's rendering, in draw order. */
  lemma EncodeFieldsInOrder(nums: seq<int>)
    requires |nums| > 0
    ensures |Strings.Split(Encode(nums), Separator)| == |nums|
    ensures forall k :: 0 <= k < |nums| ==> Strings.Split(Encode(nums), Separator)[k] == Decimal.Itoa(nums[k])
  {
    Strings.SplitJoin(Fields(nums), Separator);
  }

  /** Round trip: the text of a non-empty draw decodes to exactly that draw. */
  lemma DecodeEncode(nums: seq<int>)
    requires |nums| > 0
    ensures Decode(Encode(nums)) == Some(nums)
  {
    Strings.SplitJoin(Fields(nums), Separator);
    ParseFieldsOfFields(nums);
  }

  /** The empty draw renders as "", which does not decode: a position needs at least one field. */
  lemma EncodeEmptyDraw()
    ensures Encode([]) == ""
    ensures Decode("") == None
  {
    assert Strings.Split("", Separator) == [""];
  }

  /** A non-empty draw of n numbers renders with exactly n - 1 commas. */
  lemma EncodeSeparatorCount(nums: seq<int>)
    requires |nums| > 0
    ensures Strings.Count(Encode(nums), Separator) == |nums| - 1
  {
    Strings.JoinCount(Fields(nums), Separator);
  }

  /** Distinct draws never share a text. */
  lemma EncodeInjective(a: seq<int>, b: seq<int>)
    requires Encode(a) == Encode(b)
    ensures a == b
  {
    if |a| > 0 { DecodeEncode(a); }
    if |b| > 0 { DecodeEncode(b); }
    EncodeEmptyDraw();
  }

  lemma {:induction false} EncodeCharAt(nums: seq<int>, j: nat)
    requires forall i :: 0 <= i < |nums| ==> nums[i] >= 0
    requires j < |Encode(nums)|
    ensures Decimal.IsDigit(Encode(nums)[j]) || Encode(nums)[j] == Separator
  {
    var head := Decimal.Itoa(nums[0]);
    if |nums| == 1 {
      assert Encode(nums) == head;
    } else {
      var tail := Encode(nums[1..]);
      assert Fields(nums)[1..] == Fields(nums[1..]);
      assert Encode(nums) == head + [Separator] + tail;
      if j < |head| {
        assert Encode(nums)[j] == head[j];
      } else if j > |head| {
        assert Encode(nums)[j] == tail[j - |head| - 1];
        EncodeCharAt(nums[1..], j - |head| - 1);
      }
    }
  }

  /** A draw of non-negative numbers renders with nothing but digits and commas. */
  lemma EncodeAlphabet(nums: seq<int>)
    requires forall i :: 0 <= i < |nums| ==> nums[i] >= 0
    ensures forall c :: c in Encode(nums) ==> Decimal.IsDigit(c) || c == Separator
  {
    forall j | 0 <= j < |Encode(nums)|
      ensures Decimal.IsDigit(Encode(nums)[j]) || Encode(nums)[j] == Separator
    {
      EncodeCharAt(nums, j);
    }
  }
}

/**
  * The pure part of `renderLeader`: the largest and smallest total, the seat that
  * leads, and whether the target has been reached.
  */
module Leader {
  import opened Wrappers

  /** What the leader badge shows: a tie, or the leading seat, its total and whether it reached the target. */
  datatype Status = Tie | Leads(seat: nat, top: int, targetReached: bool)

  /** `Math.max(...s)`. */
  function Largest(s: seq<int>): (m: int)
    requires |s| > 0
    ensures m in s
    ensures forall i :: 0 <= i < |s| ==> s[i] <= m
  {
    if |s| == 1 then s[0]
    else
      var rest := Largest(s[1..]);
      assert forall i :: 1 <= i < |s| ==> s[i] == s[1..][i - 1];
      if s[0] >= rest then s[0] else rest
  }

  /** `Math.min(...s)`. */
  function Smallest(s: seq<int>): (m: int)
    requires |s| > 0
    ensures m in s
    ensures forall i :: 0 <= i < |s| ==> m <= s[i]
  {
    if |s| == 1 then s[0]
    else
      var rest := Smallest(s[1..]);
      assert forall i :: 1 <= i < |s| ==> s[i] == s[1..][i - 1];
      if s[0] <= rest then s[0] else rest
  }

  /** `s.indexOf(x)`: the first position holding `x`, or -1. */
  function IndexOf(s: seq<int>, x: int): (k: int)
    ensures x in s ==> 0 <= k < |s| && s[k] == x && forall j :: 0 <= j < k ==> s[j] != x
    ensures x !in s ==> k == -1
  {
    if s == [] then -1
    else if s[0] == x then 0
    else
      var k := IndexOf(s[1..], x);
      assert x in s ==> x in s[1..];
      if k < 0 then -1 else k + 1
  }

  predicate IsDigit(c: char) { '0' <= c <= '9' }

  predicate AllDigits(s: string) { forall i :: 0 <= i < |s| ==> IsDigit(s[i]) }

  /** The value of a string of decimal digits. */
  function DigitsValue(s: string): (n: int)
    requires AllDigits(s)
    ensures n >= 0
  {
    if s == [] then 0
    else
      var last := s[|s| - 1];
      assert IsDigit(last);
      DigitsValue(s[..|s| - 1]) * 10 + (last as int - '0' as int)
  }

  /**
    * `Number(text)` for the target text, as far as integers go: the empty text is 0,
    * an optional sign followed by decimal digits is that integer, anything else is
    * not a finite number.
    */
  function NumberValue(text: string): Option<int>
  {
    if text == "" then Some(0)
    else
      var signed := text[0] == '+' || text[0] == '-';
      var digits := if signed then text[1..] else text;
      if digits == [] || !AllDigits(digits) then None
      else if text[0] == '-' then Some(-DigitsValue(digits))
      else Some(DigitsValue(digits))
  }

  /** A few target texts: the empty text, a plain and a signed integer, and text that is not a number. */
  lemma NumberValueExamples()
    ensures NumberValue("") == Some(0)
    ensures NumberValue("42") == Some(42)
    ensures NumberValue("-5") == Some(-5)
    ensures NumberValue("4a") == None
    ensures NumberValue("-") == None
  {
    var t := "42";
    assert t[..1] == "4" && t[..1][..0] == "";
    assert DigitsValue(t) == 42;
    var m := "-5";
    assert m[1..] == "5" && m[1..][..0] == "";
    assert DigitsValue(m[1..]) == 5;
    var bad := "4a";
    assert !IsDigit(bad[1]);
  }

  /** The decimal digit character for `d`. */
  function Digit(d: int): char
    requires 0 <= d < 10
  {
    ('0' as int + d) as char
  }

  /** The decimal text of a natural number, without leading zeros. */
  function NatText(n: nat): (s: string)
    ensures s != [] && AllDigits(s)
  {
    if n < 10 then [Digit(n)] else NatText(n / 10) + [Digit(n % 10)]
  }

  /** The decimal text of an integer, with a leading minus when it is negative: what a target field holds. */
  function IntText(n: int): string
  {
    if n < 0 then "-" + NatText(-n) else NatText(n)
  }

  lemma {:induction false} NatTextValue(n: nat)
    ensures DigitsValue(NatText(n)) == n
  {
    if n >= 10 {
      NatTextValue(n / 10);
      var s := NatText(n);
      assert s[..|s| - 1] == NatText(n / 10);
    }
  }

  /** Every integer written in decimal, with or without a leading plus, reads back as itself. */
  lemma IntTextRoundTrip(n: int)
    ensures NumberValue(IntText(n)) == Some(n)
    ensures n >= 0 ==> NumberValue("+" + IntText(n)) == Some(n)
  {
    if n < 0 {
      NatTextValue(-n);
      assert IntText(n)[1..] == NatText(-n);
    } else {
      NatTextValue(n);
      var s := NatText(n);
      assert IsDigit(s[0]);
      assert ("+" + s)[1..] == s;
    }
  }

  /**
    * A non-empty target text is not a number exactly when it is a bare sign, or some
    * character other than a leading sign is not a decimal digit.
    */
  lemma NotNumberIff(text: string)
    ensures NumberValue(text).None? <==>
      text == "+" || text == "-"
      || exists i :: 0 <= i < |text| && !IsDigit(text[i]) && !(i == 0 && (text[0] == '+' || text[0] == '-'))
  {
    if text != "" && (text[0] == '+' || text[0] == '-') {
      var digits := text[1..];
      if !AllDigits(digits) {
        var j :| 0 <= j < |digits| && !IsDigit(digits[j]);
        assert !IsDigit(text[j + 1]);
      }
      if exists i :: 0 <= i < |text| && !IsDigit(text[i]) && i != 0 {
        var i :| 0 <= i < |text| && !IsDigit(text[i]) && i != 0;
        assert !IsDigit(digits[i - 1]);
      }
    }
  }

  /**
    * `renderLeader`: a tie only when the largest and the smallest total agree;
    * otherwise the first seat holding the largest total leads, and the target is
    * reached when its text is non-empty, a finite number and at most that total.
    */
  function LeaderOf(totals: seq<int>, target: string): Status
    requires |totals| > 0
  {
    var max := Largest(totals);
    var min := Smallest(totals);
    if max == min then Tie
    else
      var seat := IndexOf(totals, max);
      var t := NumberValue(target);
      Leads(seat, max, target != "" && t.Some? && max >= t.value)
  }

  /** The badge shows a tie exactly when all totals are equal. */
  lemma TieIffAllEqual(totals: seq<int>, target: string)
    requires |totals| > 0
    ensures LeaderOf(totals, target) == Tie
        <==> forall i, j :: 0 <= i < |totals| && 0 <= j < |totals| ==> totals[i] == totals[j]
  {
  }

  /** Otherwise the leader is the lowest seat holding the largest total. */
  lemma LeaderIsFirstMaximum(totals: seq<int>, target: string)
    requires |totals| > 0
    requires LeaderOf(totals, target).Leads?
    ensures var st := LeaderOf(totals, target);
      st.seat < |totals| && st.top == totals[st.seat]
      && (forall j :: 0 <= j < |totals| ==> totals[j] <= totals[st.seat])
      && (forall j :: 0 <= j < st.seat ==> totals[j] < totals[st.seat])
  {
  }

  /** The target counts as reached iff it is non-empty, numeric and no more than the leader's total. */
  lemma TargetReachedIff(totals: seq<int>, target: string)
    requires |totals| > 0
    requires LeaderOf(totals, target).Leads?
    ensures var st := LeaderOf(totals, target);
      var t := NumberValue(target);
      st.targetReached <==> target != "" && t.Some? && totals[st.seat] >= t.value
  {
  }

  /** Two seats sharing the lead is not a tie: the first of them is reported as leader. */
  lemma SharedLeadExample()
    ensures LeaderOf([10, 20, 10, 20], "") == Leads(1, 20, false)
  {
  }
}

/**
 * The threshold language of the plant rule table (`eval_condition`):
 * `"a-b"` is an inclusive range, `">x"` and `"<x"` are strict bounds, and
 * everything else, including a missing reading, never matches.
 */
module Conditions {
  import opened Wrappers
  import opened PyStr

  /** A condition cell of a rule, as the JSON configuration holds it. */
  datatype Field = Absent | Text(text: string) | NotText

  /** The number after a one-character operator, when the text splits into exactly two parts. */
  function BoundAfter(c: string, op: char): Option<real>
  {
    var parts := Split(c, op);
    if |parts| == 2 then ParseNum(Strip(parts[1])) else None
  }

  /**
   * `eval_condition(value, condition)`.  A missing reading or a condition
   * that is not text is never satisfied; a condition containing `-` is a
   * range and is decided there, whatever else it contains.
   */
  function EvalCondition(value: Option<real>, condition: Field): (r: bool)
    ensures value.None? ==> !r
    ensures !condition.Text? ==> !r
  {
    if value.None? || !condition.Text? then false
    else
      var v := value.value;
      var c := Strip(condition.text);
      if '-' in c then
        var parts := Split(c, '-');
        if |parts| == 2 then
          match (ParseNum(Strip(parts[0])), ParseNum(Strip(parts[1])))
          case (Some(lo), Some(hi)) => lo <= v <= hi
          case _ => false
        else false
      else if '>' in c then
        match BoundAfter(c, '>')
        case Some(x) => v > x
        case None => false
      else if '<' in c then
        match BoundAfter(c, '<')
        case Some(x) => v < x
        case None => false
      else false
  }

  /**
   * The condition fails closed: a satisfied condition has one of the three
   * well-formed shapes.  With a `-` it must split into exactly two numbers
   * (a `>` or `<` beside it does not rescue it); otherwise the first of `>`
   * and `<` it contains must be followed by a number; text with none of the
   * three characters is never satisfied.
   */
  lemma EvalFailsClosed(v: real, t: string)
    ensures EvalCondition(Some(v), Text(t)) ==>
      var c := Strip(t);
      if '-' in c then
        |Split(c, '-')| == 2
        && ParseNum(Strip(Split(c, '-')[0])).Some? && ParseNum(Strip(Split(c, '-')[1])).Some?
      else if '>' in c then BoundAfter(c, '>').Some?
      else '<' in c && BoundAfter(c, '<').Some?
  {
  }

  /** How a condition with a `-` is decided, once its text is known to split into two numbers. */
  lemma RangeDecided(v: real, t: string, lo: real, hi: real)
    requires '-' in Strip(t)
    requires |Split(Strip(t), '-')| == 2
    requires ParseNum(Strip(Split(Strip(t), '-')[0])) == Some(lo)
    requires ParseNum(Strip(Split(Strip(t), '-')[1])) == Some(hi)
    ensures EvalCondition(Some(v), Text(t)) <==> lo <= v <= hi
  {
  }

  /** How a condition without `-` but with the operator `op` is decided, once its bound is known. */
  lemma BoundDecided(v: real, t: string, op: char, x: real)
    requires op == '>' || op == '<'
    requires '-' !in Strip(t) && op in Strip(t)
    requires op == '<' ==> '>' !in Strip(t)
    requires BoundAfter(Strip(t), op) == Some(x)
    ensures EvalCondition(Some(v), Text(t)) <==> if op == '>' then v > x else v < x
  {
  }

  /** The text of a range of two natural numbers strips to itself and splits at its one `-`. */
  lemma RangeText(a: nat, b: nat)
    ensures var t := NatStr(a) + "-" + NatStr(b);
      Strip(t) == t && '-' in t && Split(t, '-') == [NatStr(a), NatStr(b)]
  {
    var sa, sb := NatStr(a), NatStr(b);
    var t := sa + "-" + sb;
    assert t[|sa|] == '-';
    assert t[0] == sa[0] && t[|t| - 1] == sb[|sb| - 1];
    DigitEnds(t);
    SplitBetween(sa, sb, '-');
  }

  /** Text that starts and ends with a digit is its own strip. */
  lemma DigitEnds(t: string)
    requires |t| > 0 && IsDigit(t[0]) && IsDigit(t[|t| - 1])
    ensures Strip(t) == t
  {
    StripUnpadded(t);
  }

  /** Two digit strings joined by a separator split back into the two. */
  lemma SplitBetween(sa: string, sb: string, sep: char)
    requires AllDigits(sa) && AllDigits(sb) && !IsDigit(sep)
    ensures Split(sa + [sep] + sb, sep) == [sa, sb]
  {
    DigitsExclude(sa, sep);
    DigitsExclude(sb, sep);
    SplitAt(sa, sb, sep);
    SplitWithout(sb, sep);
  }

  /**
   * `"a-b"` holds exactly for the readings between `a` and `b`, both
   * included, for bounds written as natural numbers.  Decimal bounds are
   * covered by `RangeDecided`, which takes any two texts that `float`
   * accepts; a negative bound brings one more `-`, so the text no longer
   * splits into two parts and never holds (`EvalFailsClosed`).
   */
  lemma RangeMeaning(a: nat, b: nat, v: real)
    ensures EvalCondition(Some(v), Text(NatStr(a) + "-" + NatStr(b))) <==> a as real <= v <= b as real
  {
    RangeText(a, b);
    StripDigits(NatStr(a));
    StripDigits(NatStr(b));
    ParseNumNatStr(a);
    ParseNumNatStr(b);
    RangeDecided(v, NatStr(a) + "-" + NatStr(b), a as real, b as real);
  }

  /**
   * `">x"`, with or without blanks before the number, holds exactly above
   * `x`, for a natural-number threshold; `BoundDecided` covers any bound
   * without a minus sign that `float` accepts (`NegativeBoundNeverMatches`).
   */
  lemma GreaterMeaning(pad: string, x: nat, v: real)
    requires AllSpace(pad)
    ensures EvalCondition(Some(v), Text(">" + pad + NatStr(x))) <==> v > x as real
  {
    BoundText('>', pad, x);
    BoundDecided(v, ">" + pad + NatStr(x), '>', x as real);
  }

  /**
   * `"<x"`, with or without blanks before the number, holds exactly below
   * `x`, for a natural-number threshold; `BoundDecided` covers any bound
   * without a minus sign that `float` accepts (`NegativeBoundNeverMatches`).
   */
  lemma LessMeaning(pad: string, x: nat, v: real)
    requires AllSpace(pad)
    ensures EvalCondition(Some(v), Text("<" + pad + NatStr(x))) <==> v < x as real
  {
    BoundText('<', pad, x);
    BoundDecided(v, "<" + pad + NatStr(x), '<', x as real);
  }

  /** The text `op`, blanks, then a natural number: strips to itself, has no `-` and no other operator, and its bound parses. */
  lemma BoundText(op: char, pad: string, x: nat)
    requires op == '>' || op == '<'
    requires AllSpace(pad)
    ensures var t := [op] + pad + NatStr(x);
      Strip(t) == t && '-' !in t && op in t && (op == '<' ==> '>' !in t) && BoundAfter(t, op) == Some(x as real)
  {
    var s := NatStr(x);
    BoundUnpadded(op, pad, s);
    BoundChars(op, pad, s);
    BoundParses(op, pad, x);
  }

  /** An operator, blanks and digits is its own strip. */
  lemma BoundUnpadded(op: char, pad: string, s: string)
    requires op == '>' || op == '<'
    requires |s| > 0 && AllDigits(s)
    ensures Strip([op] + pad + s) == [op] + pad + s
  {
    var t := [op] + pad + s;
    assert t[0] == op && t[|t| - 1] == s[|s| - 1];
    assert IsDigit(t[|t| - 1]);
    StripUnpadded(t);
  }

  /** The bound after the operator is the number written after the blanks. */
  lemma BoundParses(op: char, pad: string, x: nat)
    requires op == '>' || op == '<'
    requires AllSpace(pad)
    ensures BoundAfter([op] + pad + NatStr(x), op) == Some(x as real)
  {
    var s := NatStr(x);
    BoundChars(op, pad, s);
    BoundSplit(op, pad, s);
    var parts := Split([op] + pad + s, op);
    assert |parts| == 2 && parts[1] == pad + s;
    assert IsDigit(s[0]) && IsDigit(s[|s| - 1]);
    StripPadded(pad, s);
    assert Strip(parts[1]) == s;
    ParseNumNatStr(x);
  }

  /** Which characters occur in an operator, blanks and digits. */
  lemma BoundChars(op: char, pad: string, s: string)
    requires op == '>' || op == '<'
    requires AllSpace(pad) && AllDigits(s)
    ensures var t := [op] + pad + s; '-' !in t && op in t && (op == '<' ==> '>' !in t) && op !in pad + s
  {
    var t := [op] + pad + s;
    assert t[0] == op;
    forall i | 0 <= i < |t| ensures t[i] != '-' && (i > 0 ==> t[i] != '<' && t[i] != '>') {
      if 1 <= i <= |pad| { assert t[i] == pad[i - 1]; }
      else if i > |pad| { assert t[i] == s[i - 1 - |pad|] && IsDigit(t[i]); }
    }
    forall i | 0 <= i < |pad + s| ensures (pad + s)[i] != op {
      assert (pad + s)[i] == t[i + 1];
    }
  }

  /** An operator followed by text without it splits into nothing and that text. */
  lemma BoundSplit(op: char, pad: string, s: string)
    requires op !in pad + s
    ensures Split([op] + pad + s, op) == ["", pad + s]
  {
    assert [op] + pad + s == [] + [op] + (pad + s);
    SplitAt([], pad + s, op);
    SplitWithout(pad + s, op);
  }

  /** An operator alone is not a number. */
  lemma OperatorNotNumber(op: char)
    requires op == '>' || op == '<'
    ensures ParseNum(Strip([op])) == None
  {
    StripUnpadded([op]);
    assert '.' !in [op];
    SplitWithout([op], '.');
    assert !AllDigits([op]);
  }

  /**
   * A negative bound cannot be written: `">-x"` and `"<-x"` are taken for
   * ranges, and the text before the `-` is not a number.
   */
  lemma NegativeBoundNeverMatches(op: char, x: nat, v: real)
    requires op == '>' || op == '<'
    ensures !EvalCondition(Some(v), Text([op, '-'] + NatStr(x)))
  {
    var s := NatStr(x);
    var t := [op, '-'] + s;
    assert t[0] == op && t[|t| - 1] == s[|s| - 1];
    StripUnpadded(t);
    assert '-' in Strip(t) by { assert t[1] == '-'; }
    DigitsExclude(s, '-');
    assert t == [op] + ['-'] + s;
    SplitAt([op], s, '-');
    SplitWithout(s, '-');
    assert Split(Strip(t), '-')[0] == [op];
    OperatorNotNumber(op);
  }
}

// frontend/components/PaymentSheet.tsx: the simulated card checkout. Each
// keystroke reformats the card number and the expiry date and cuts the CVC to
// three characters; the pay button is enabled only for complete fields, and
// the sheet then goes from input to processing to success before confirming.
// The two delays are separate steps here.

module Payment {
  import opened Text

  function Min(a: int, b: int): int {
    if a <= b then a else b
  }

  // ---------------------------------------------------------------- digit strings

  predicate AllDigits(s: string) {
    forall i :: 0 <= i < |s| ==> IsDigit(s[i])
  }

  lemma {:induction false} DigitsAppend(a: string, b: string)
    decreases |a|
    ensures Digits(a + b) == Digits(a) + Digits(b)
  {
    if a == [] {
      assert a + b == b;
    } else {
      assert (a + b)[0] == a[0] && (a + b)[1..] == a[1..] + b;
      DigitsAppend(a[1..], b);
    }
  }

  lemma {:induction false} DigitsOfDigits(s: string)
    decreases |s|
    requires AllDigits(s)
    ensures Digits(s) == s
  {
    if s != [] {
      DigitsOfDigits(s[1..]);
      assert s == [s[0]] + s[1..];
    }
  }

  // ---------------------------------------------------------------- card number

  /** `replace(/(\d{4})/g, '$1 ')` on a digit string: a space after every full group of four. */
  function Group(d: string): string
    decreases |d|
  {
    if |d| >= 4 then d[..4] + " " + Group(d[4..]) else d
  }

  /** Digits in groups of four separated by single spaces, with no space at the end. */
  function Spaced(d: string): string
    decreases |d|
  {
    if |d| <= 4 then d else d[..4] + " " + Spaced(d[4..])
  }

  /** `formatCard`: the digits, grouped, trimmed and cut to 19 characters. */
  function FormatCard(v: string): string {
    var t := Strip(Group(Digits(v)));
    t[..Min(19, |t|)]
  }

  lemma {:induction false} GroupSpaced(d: string)
    decreases |d|
    ensures Group(d) == Spaced(d) + (if |d| > 0 && |d| % 4 == 0 then " " else "")
  {
    if |d| > 4 {
      GroupSpaced(d[4..]);
    } else if |d| == 4 {
      assert d[4..] == [] && d[..4] == d;
    }
  }

  /** A grouped number has one space per full group of four before the last digit. */
  lemma {:induction false} SpacedLength(d: string)
    decreases |d|
    ensures |Spaced(d)| == if d == [] then 0 else |d| + (|d| - 1) / 4
  {
    if |d| > 4 {
      SpacedLength(d[4..]);
    }
  }

  /** A space exactly at every fifth position, elsewhere the digit that belongs there. */
  lemma {:induction false} SpacedLayout(d: string)
    decreases |d|
    requires AllDigits(d)
    ensures forall i :: 0 <= i < |Spaced(d)| ==> (Spaced(d)[i] == ' ' <==> i % 5 == 4)
    ensures forall i :: 0 <= i < |Spaced(d)| && i % 5 != 4 ==> i - i / 5 < |d| && Spaced(d)[i] == d[i - i / 5]
  {
    if |d| > 4 {
      var rest := d[4..];
      SpacedLayout(rest);
      SpacedLength(rest);
      var s := Spaced(d);
      assert s == d[..4] + " " + Spaced(rest);
      forall i | 0 <= i < |s|
        ensures (s[i] == ' ' <==> i % 5 == 4)
        ensures i % 5 != 4 ==> i - i / 5 < |d| && s[i] == d[i - i / 5]
      {
        if i >= 5 {
          assert s[i] == Spaced(rest)[i - 5];
          assert (i - 5) % 5 == i % 5 && (i - 5) / 5 == i / 5 - 1;
        }
      }
    }
  }

  /** Dropping the spaces of a grouped number gives back its digits. */
  lemma {:induction false} SpacedDigits(d: string)
    decreases |d|
    requires AllDigits(d)
    ensures Digits(Spaced(d)) == d
  {
    if |d| <= 4 {
      DigitsOfDigits(d);
    } else {
      var rest := d[4..];
      SpacedDigits(rest);
      DigitsOfDigits(d[..4]);
      DigitsAppend(d[..4], " ");
      DigitsAppend(d[..4] + " ", Spaced(rest));
      assert d == d[..4] + rest;
    }
  }

  /** The layout of a grouped number: its length, a space exactly at every fifth
      position, elsewhere the digit that belongs there, and its digits. */
  lemma SpacedShape(d: string)
    requires AllDigits(d)
    ensures |Spaced(d)| == if d == [] then 0 else |d| + (|d| - 1) / 4
    ensures forall i :: 0 <= i < |Spaced(d)| ==> (Spaced(d)[i] == ' ' <==> i % 5 == 4)
    ensures forall i :: 0 <= i < |Spaced(d)| && i % 5 != 4 ==> i - i / 5 < |d| && Spaced(d)[i] == d[i - i / 5]
    ensures Digits(Spaced(d)) == d
  {
    SpacedLength(d);
    SpacedLayout(d);
    SpacedDigits(d);
  }

  /** Trimming removes the space `Group` leaves after a last full group, and nothing else. */
  lemma StripGroup(d: string)
    requires AllDigits(d)
    ensures Strip(Group(d)) == Spaced(d)
  {
    GroupSpaced(d);
    SpacedShape(d);
    var s := Spaced(d);
    if d != [] {
      var n := |s| - 1;
      assert n % 5 != 4 by {
        var q, r := (|d| - 1) / 4, (|d| - 1) % 4;
        assert n == 5 * q + r;
      }
      assert !IsSpace(s[0]) && !IsSpace(s[n]);
      assert TrimStart(s) == s && TrimEnd(s) == s;
      if |d| % 4 == 0 {
        assert (s + " ")[..|s + " "| - 1] == s;
        assert (s + " ")[0] == s[0];
        assert TrimStart(s + " ") == s + " ";
      }
    }
  }

  /** The first 19 characters of a longer number are the grouping of its first 16 digits. */
  lemma CutAtSixteen(d: string)
    requires AllDigits(d) && |d| > 16
    ensures |Spaced(d)| >= 19 && Spaced(d)[..19] == Spaced(d[..16])
  {
    SpacedShape(d);
    SpacedShape(d[..16]);
    var a, b := Spaced(d)[..19], Spaced(d[..16]);
    assert |a| == 19 == |b|;
    forall i | 0 <= i < 19 ensures a[i] == b[i] {
      if i % 5 != 4 {
        assert a[i] == d[i - i / 5];
        assert b[i] == d[..16][i - i / 5];
      }
    }
  }

  /** The formatted card number is the grouping of the input's first 16 digits. */
  lemma FormatCardIsSpaced(v: string)
    ensures var d := Digits(v); FormatCard(v) == Spaced(d[..Min(16, |d|)])
  {
    var d := Digits(v);
    DigitsSpec(v);
    StripGroup(d);
    SpacedShape(d);
    if |d| > 16 {
      CutAtSixteen(d);
    } else {
      assert d[..|d|] == d;
    }
  }

  /** `formatCard` keeps a prefix of at most 16 of the input's digits, grouped in
      fours by single spaces, in at most 19 characters; it is 18 characters or
      more exactly when the input has at least 15 digits. */
  lemma FormatCardSpec(v: string)
    ensures var r, d := FormatCard(v), Digits(v);
      && |r| <= 19
      && (forall i :: 0 <= i < |r| ==> (r[i] == ' ' <==> i % 5 == 4) && (i % 5 != 4 ==> IsDigit(r[i])))
      && Digits(r) == d[..Min(16, |d|)]
      && (|r| >= 18 <==> |d| >= 15)
  {
    var d := Digits(v);
    var k := Min(16, |d|);
    DigitsSpec(v);
    FormatCardIsSpaced(v);
    SpacedShape(d[..k]);
    var r := FormatCard(v);
    assert r == Spaced(d[..k]);
    assert |r| == if k == 0 then 0 else k + (k - 1) / 4;
    assert |r| <= 19;
    assert |r| >= 18 <==> k >= 15;
  }

  /** Reformatting a formatted card number changes nothing. */
  lemma FormatCardIdempotent(v: string)
    ensures FormatCard(FormatCard(v)) == FormatCard(v)
  {
    var d := Digits(v);
    var k := Min(16, |d|);
    var r := FormatCard(v);
    FormatCardSpec(v);
    FormatCardIsSpaced(v);
    FormatCardIsSpaced(r);
    assert Digits(r) == d[..k] && |d[..k]| == k;
    assert d[..k][..Min(16, k)] == d[..k];
  }

  // ---------------------------------------------------------------- expiry date

  /** `replace(/(\d{2})(\d{1,2})/, '$1/$2')` on a digit string: a slash after the
      first two digits when a third follows. */
  function ExpiryReplace(d: string): string {
    if |d| >= 3 then d[..2] + "/" + d[2..Min(4, |d|)] + d[Min(4, |d|)..] else d
  }

  /** `formatExpiry`: the digits, a slash after the month, cut to five characters. */
  function FormatExpiry(v: string): string {
    var t := ExpiryReplace(Digits(v));
    t[..Min(5, |t|)]
  }

  /** `formatExpiry` gives the digits alone while there are at most two, and
      otherwise two digits, a slash and up to two more; it is five characters
      exactly when the input has at least four digits. */
  lemma FormatExpirySpec(v: string)
    ensures var r, d := FormatExpiry(v), Digits(v);
      && |r| <= 5
      && (|d| <= 2 ==> r == d)
      && (|d| >= 3 ==> r == d[..2] + "/" + d[2..Min(4, |d|)])
      && (|r| == 5 <==> |d| >= 4)
  {
    var d := Digits(v);
    if |d| >= 3 {
      var m := Min(4, |d|);
      var t := ExpiryReplace(d);
      assert t[..Min(5, |t|)] == d[..2] + "/" + d[2..m];
    }
  }

  /** Reformatting a formatted expiry date changes nothing. */
  lemma FormatExpiryIdempotent(v: string)
    ensures FormatExpiry(FormatExpiry(v)) == FormatExpiry(v)
  {
    var d := Digits(v);
    var r := FormatExpiry(v);
    DigitsSpec(v);
    FormatExpirySpec(v);
    if |d| >= 3 {
      var m := Min(4, |d|);
      DigitsAppend(d[..2], "/");
      DigitsAppend(d[..2] + "/", d[2..m]);
      DigitsOfDigits(d[..2]);
      DigitsOfDigits(d[2..m]);
      assert d[..2] + d[2..m] == d[..m];
      assert Digits(r) == d[..m];
      FormatExpirySpec(r);
    } else {
      DigitsOfDigits(d);
      FormatExpirySpec(r);
    }
  }

  // ---------------------------------------------------------------- CVC and validity

  /** The CVC field keeps the first three characters typed. */
  function Cvc(v: string): (r: string)
    ensures |r| <= 3 && |r| <= |v| && r == v[..|r|]
    ensures |v| >= 3 ==> |r| == 3
  {
    v[..Min(3, |v|)]
  }

  /** `isValid`: the pay button's condition. */
  predicate IsValid(cardNum: string, expiry: string, cvc: string) {
    |cardNum| >= 18 && |expiry| == 5 && |cvc| >= 3
  }

  /** On formatted fields, the pay button is enabled exactly when the card has at
      least 15 digits, the date at least 4 and the CVC input at least 3 characters. */
  lemma IsValidOnInputs(card: string, date: string, code: string)
    ensures IsValid(FormatCard(card), FormatExpiry(date), Cvc(code))
      <==> |Digits(card)| >= 15 && |Digits(date)| >= 4 && |code| >= 3
  {
    FormatCardSpec(card);
    FormatExpirySpec(date);
  }

  // ---------------------------------------------------------------- the sheet

  datatype Step = Input | Processing | Success

  /** The payment sheet's state. */
  class PaymentSheet {
    var step: Step
    var cardNum: string
    var expiry: string
    var cvc: string

    /** Once the sheet has left the input step, the fields were valid when it did. */
    ghost predicate Valid()
      reads this
    {
      step != Input ==> IsValid(cardNum, expiry, cvc)
    }

    constructor ()
      ensures Valid() && step == Input && cardNum == "" && expiry == "" && cvc == ""
    {
      step := Input;
      cardNum := "";
      expiry := "";
      cvc := "";
    }

    /** Typing in the card field (shown only in the input step). */
    method TypeCard(v: string)
      requires Valid()
      modifies this
      ensures Valid()
      ensures cardNum == (if old(step) == Input then FormatCard(v) else old(cardNum))
      ensures step == old(step) && expiry == old(expiry) && cvc == old(cvc)
    {
      if step == Input {
        cardNum := FormatCard(v);
      }
    }

    /** Typing in the expiry field (shown only in the input step). */
    method TypeExpiry(v: string)
      requires Valid()
      modifies this
      ensures Valid()
      ensures expiry == (if old(step) == Input then FormatExpiry(v) else old(expiry))
      ensures step == old(step) && cardNum == old(cardNum) && cvc == old(cvc)
    {
      if step == Input {
        expiry := FormatExpiry(v);
      }
    }

    /** Typing in the CVC field (shown only in the input step). */
    method TypeCvc(v: string)
      requires Valid()
      modifies this
      ensures Valid()
      ensures cvc == (if old(step) == Input then Cvc(v) else old(cvc))
      ensures step == old(step) && cardNum == old(cardNum) && expiry == old(expiry)
    {
      if step == Input {
        cvc := Cvc(v);
      }
    }

    /** `handleSubmit`: the enabled pay button moves the sheet to processing. */
    method Submit()
      requires Valid()
      modifies this
      ensures Valid()
      ensures step == (if old(step) == Input && IsValid(cardNum, expiry, cvc) then Processing else old(step))
      ensures cardNum == old(cardNum) && expiry == old(expiry) && cvc == old(cvc)
    {
      if step == Input && IsValid(cardNum, expiry, cvc) {
        step := Processing;
      }
    }

    /** The first delay: processing turns into success. */
    method Approve()
      requires Valid()
      modifies this
      ensures Valid()
      ensures step == (if old(step) == Processing then Success else old(step))
      ensures cardNum == old(cardNum) && expiry == old(expiry) && cvc == old(cvc)
    {
      if step == Processing {
        step := Success;
      }
    }

    /** The second delay: `onConfirm` fires, and only once the payment succeeded,
        which needs valid fields. */
    method Confirm() returns (confirmed: bool)
      requires Valid()
      ensures confirmed <==> step == Success
      ensures confirmed ==> IsValid(cardNum, expiry, cvc)
    {
      confirmed := step == Success;
    }
  }
}

/** The leave and holiday inputs (Timesheet.py:114-115): the comma-separated text is
    split on ",", each piece is stripped, and the pieces that are all digits are
    kept, in input order, as integers. */
module DayLists {
  import opened Text

  /** The list comprehension `[int(x.strip()) for x in tokens if x.strip().isdigit()]`. */
  function KeepNumbers(tokens: seq<string>): (days: seq<int>)
    ensures |days| <= |tokens|
    ensures forall k :: 0 <= k < |days| ==> days[k] >= 0
  {
    if tokens == [] then []
    else
      var t := Strip(tokens[0]);
      (if IsDigits(t) then [DigitsValue(t)] else []) + KeepNumbers(tokens[1..])
  }

  /** `[int(x.strip()) for x in text.split(",") if x.strip().isdigit()]`. */
  function ParseDays(text: string): seq<int> {
    KeepNumbers(Split(text, ','))
  }

  /** A token counts exactly when its stripped form is a non-empty run of digits. */
  predicate IsNumberToken(t: string) {
    IsDigits(Strip(t))
  }

  /** The token is a number token for the value v. */
  predicate ReadsAs(t: string, v: int) {
    IsNumberToken(t) && DigitsValue(Strip(t)) == v
  }

  /** A value is parsed exactly when some comma-separated token reads as it; every
      parsed value is a natural number, and there are at most as many as tokens. */
  lemma ParsedValues(text: string, v: int)
    ensures v in ParseDays(text) <==> exists t :: t in Split(text, ',') && ReadsAs(t, v)
    ensures forall k :: 0 <= k < |ParseDays(text)| ==> ParseDays(text)[k] >= 0
    ensures |ParseDays(text)| <= |Split(text, ',')|
  {
    KeptValues(Split(text, ','), v);
  }

  lemma {:induction false} KeptValues(tokens: seq<string>, v: int)
    ensures v in KeepNumbers(tokens) <==> exists t :: t in tokens && ReadsAs(t, v)
  {
    if tokens != [] {
      var t0, rest := tokens[0], tokens[1..];
      KeptValues(rest, v);
      var head := if IsNumberToken(t0) then [DigitsValue(Strip(t0))] else [];
      assert KeepNumbers(tokens) == head + KeepNumbers(rest);
      assert v in head <==> ReadsAs(t0, v);
      if exists t :: t in tokens && ReadsAs(t, v) {
        var t :| t in tokens && ReadsAs(t, v);
        if t != t0 {
          assert t in rest;
        }
      }
      if exists t :: t in rest && ReadsAs(t, v) {
        var t :| t in rest && ReadsAs(t, v);
        assert t in tokens;
      }
    }
  }

  /** The text a user types for a list of days: `"2, 15"` for [2, 15]. */
  function FormatDays(days: seq<nat>): string {
    if days == [] then "" else Join(FormatTokens(days), ',')
  }

  /** The pieces of `FormatDays` between the commas: the first number bare,
      the others after one space. */
  function FormatTokens(days: seq<nat>): (tokens: seq<string>)
    requires days != []
    ensures |tokens| == |days|
  {
    seq(|days|, i requires 0 <= i < |days| => (if i == 0 then "" else " ") + NatToString(days[i]))
  }

  /** Parsing gives back exactly the days that were written out, in order. */
  lemma ParseFormatted(days: seq<nat>)
    ensures ParseDays(FormatDays(days)) == days
  {
    if days != [] {
      var tokens := FormatTokens(days);
      forall i | 0 <= i < |tokens|
        ensures ',' !in tokens[i]
      {
        var s := NatToString(days[i]);
        assert forall k :: 0 <= k < |s| ==> IsDigit(s[k]);
      }
      SplitJoin(tokens, ',');
      KeepFormatted(days, tokens);
    } else {
      assert Split("", ',') == [""];
      assert !IsDigits(Strip(""));
    }
  }

  lemma {:induction false} KeepFormatted(days: seq<nat>, tokens: seq<string>)
    requires |tokens| == |days|
    requires forall i :: 0 <= i < |days| ==>
      tokens[i] == NatToString(days[i]) || tokens[i] == " " + NatToString(days[i])
    ensures KeepNumbers(tokens) == days
  {
    if days != [] {
      var ds, ts := days[1..], tokens[1..];
      assert KeepNumbers(tokens) == [days[0]] + KeepNumbers(ts) by {
        FormattedToken(tokens[0], days[0]);
        KeepNumbersCons(tokens);
      }
      assert KeepNumbers(ts) == ds by {
        forall i | 0 <= i < |ds|
          ensures ts[i] == NatToString(ds[i]) || ts[i] == " " + NatToString(ds[i])
        {
          assert ts[i] == tokens[i + 1] && ds[i] == days[i + 1];
        }
        KeepFormatted(ds, ts);
      }
      assert days == [days[0]] + ds;
    }
  }

  /** A leading number token contributes its value ahead of the rest. */
  lemma KeepNumbersCons(tokens: seq<string>)
    requires tokens != [] && IsDigits(Strip(tokens[0]))
    ensures KeepNumbers(tokens) == [DigitsValue(Strip(tokens[0]))] + KeepNumbers(tokens[1..])
  {
  }

  /** A number written out, with or without one leading space, is a number token for it. */
  lemma FormattedToken(t: string, n: nat)
    requires t == NatToString(n) || t == " " + NatToString(n)
    ensures IsDigits(Strip(t)) && DigitsValue(Strip(t)) == n
  {
    var s := NatToString(n);
    assert !IsSpace(s[0]) && !IsSpace(s[|s| - 1]);
    if t == s {
      StripPadded([], s, []);
      assert [] + s + [] == s;
    } else {
      StripPadded(" ", s, []);
      assert " " + s + [] == t;
    }
    DigitsValueOfNatToString(n);
  }

  /** A token holding any character that is neither whitespace nor a digit (a sign,
      a letter, a decimal point) is dropped. */
  lemma NonDigitDropped(t: string, k: int)
    requires 0 <= k < |t| && !IsSpace(t[k]) && !IsDigit(t[k])
    ensures !IsNumberToken(t)
  {
    StripIsInfix(t);
    var r := Strip(t);
    var i := |t| - |TrimStart(t)|;
    assert i <= k < i + |r|;
    assert r[k - i] == t[k];
  }

  /** A token of nothing but whitespace, the empty token included, is dropped. */
  lemma BlankDropped(t: string)
    requires forall k :: 0 <= k < |t| ==> IsSpace(t[k])
    ensures !IsNumberToken(t)
  {
    StripIsInfix(t);
  }

  /** Whitespace around a written-out number is stripped before it is read: the token
      reads as that number whatever padding surrounds it. */
  lemma PaddedNumberKept(pre: string, n: nat, post: string)
    requires forall k :: 0 <= k < |pre| ==> IsSpace(pre[k])
    requires forall k :: 0 <= k < |post| ==> IsSpace(post[k])
    ensures ReadsAs(pre + NatToString(n) + post, n)
  {
    var s := NatToString(n);
    assert !IsSpace(s[0]) && !IsSpace(s[|s| - 1]);
    StripPadded(pre, s, post);
    DigitsValueOfNatToString(n);
  }

  /** Spaces around digits are stripped before the digits are read. */
  lemma PaddedTokenKept()
    ensures ReadsAs(" 7 ", 7)
  {
    assert NatToString(7) == "7";
    PaddedNumberKept(" ", 7, " ");
    assert " " + NatToString(7) + " " == " 7 ";
  }
}

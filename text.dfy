/** The Python string operations the trip analysis relies on: `str.split`
    with a one-character separator, `str.rsplit(sep, maxsplit)[0]`,
    `str(int)` and `int(str)` on decimal literals. */
module Text {
  import opened Results

  /** Index of the last occurrence of `c` in `s`, or -1 when there is none. */
  function LastIndex(s: string, c: char): (r: int)
    ensures -1 <= r < |s|
    ensures r >= 0 ==> s[r] == c
    ensures forall k :: r < k < |s| ==> s[k] != c
  {
    if |s| == 0 then -1
    else if s[|s| - 1] == c then |s| - 1
    else LastIndex(s[..|s| - 1], c)
  }

  /** Python's `s.split(c)`: the pieces between occurrences of `c`, always at
      least one (the empty string splits into one empty field). The pieces are
      peeled off from the right; the result is the same as splitting from the
      left. */
  function Split(s: string, c: char): (fields: seq<string>)
    ensures |fields| >= 1
    decreases |s|
  {
    var i := LastIndex(s, c);
    if i < 0 then [s] else Split(s[..i], c) + [s[i + 1..]]
  }

  /** Python's `c.join(fields)`, the inverse of `Split`. */
  function Join(fields: seq<string>, c: char): string
    requires |fields| >= 1
  {
    if |fields| == 1 then fields[0]
    else Join(fields[..|fields| - 1], c) + [c] + fields[|fields| - 1]
  }

  /** Python's `s.rsplit(c, maxsplit)[0]`: what is left after the text from
      the last `c` onwards has been cut off, at most `maxsplit` times. */
  function RSplitHead(s: string, c: char, maxsplit: nat): string
  {
    if maxsplit == 0 then s
    else
      var i := LastIndex(s, c);
      if i < 0 then s else RSplitHead(s[..i], c, maxsplit - 1)
  }

  lemma {:induction false} JoinSplit(s: string, c: char)
    ensures Join(Split(s, c), c) == s
    decreases |s|
  {
    var i := LastIndex(s, c);
    if i >= 0 {
      var init := Split(s[..i], c);
      var fs := init + [s[i + 1..]];
      assert Split(s, c) == fs;
      JoinSplit(s[..i], c);
      assert fs[..|fs| - 1] == init;
      assert Join(fs, c) == Join(init, c) + [c] + s[i + 1..];
      assert s == s[..i] + [c] + s[i + 1..];
    }
  }

  lemma {:induction false} SplitFieldsFree(s: string, c: char)
    ensures forall f :: f in Split(s, c) ==> c !in f
    decreases |s|
  {
    var i := LastIndex(s, c);
    if i >= 0 {
      SplitFieldsFree(s[..i], c);
      var tail := s[i + 1..];
      assert forall k :: 0 <= k < |tail| ==> tail[k] == s[i + 1 + k];
      assert c !in tail;
    }
  }

  /** Splitting a joined list of separator-free fields gives the fields back. */
  lemma {:induction false} SplitJoin(fields: seq<string>, c: char)
    requires |fields| >= 1
    requires forall f :: f in fields ==> c !in f
    ensures Split(Join(fields, c), c) == fields
    decreases |fields|
  {
    if |fields| > 1 {
      var init, last := fields[..|fields| - 1], fields[|fields| - 1];
      var j := Join(init, c);
      var s := j + [c] + last;
      assert Join(fields, c) == s;
      assert LastIndex(s, c) == |j| by {
        LastIndexAfter(j, c, last);
      }
      assert s[..|j|] == j;
      assert s[|j| + 1..] == last;
      assert Split(s, c) == Split(j, c) + [last];
      assert init == fields[..|fields| - 1] && fields == init + [last];
      assert forall f :: f in init ==> f in fields;
      SplitJoin(init, c);
    } else {
      assert fields[0] in fields;
    }
  }

  lemma {:induction false} LastIndexAfter(j: string, c: char, last: string)
    requires c !in last
    ensures LastIndex(j + [c] + last, c) == |j|
    decreases |last|
  {
    var s := j + [c] + last;
    if |last| > 0 {
      var shorter := last[..|last| - 1];
      assert s[..|s| - 1] == j + [c] + shorter;
      assert s[|s| - 1] == last[|last| - 1];
      assert c !in shorter by {
        assert forall k :: 0 <= k < |shorter| ==> shorter[k] == last[k];
      }
      LastIndexAfter(j, c, shorter);
    }
  }

  /** Taking the head of `rsplit` drops the last `min(maxsplit, |fields| - 1)`
      fields of the full split and joins the rest back together. */
  lemma {:induction false} RSplitHeadFields(s: string, c: char, maxsplit: nat)
    ensures var fs := Split(s, c);
      var cut := if maxsplit < |fs| - 1 then maxsplit else |fs| - 1;
      RSplitHead(s, c, maxsplit) == Join(fs[..|fs| - cut], c)
    decreases maxsplit
  {
    var fs := Split(s, c);
    var i := LastIndex(s, c);
    if maxsplit == 0 {
      JoinSplit(s, c);
      assert fs[..|fs|] == fs;
    } else if i < 0 {
      assert fs == [s];
    } else {
      RSplitHeadFields(s[..i], c, maxsplit - 1);
      var gs := Split(s[..i], c);
      assert fs == gs + [s[i + 1..]];
      var cut := if maxsplit - 1 < |gs| - 1 then maxsplit - 1 else |gs| - 1;
      assert fs[..|fs| - (cut + 1)] == gs[..|gs| - cut];
    }
  }

  // ---- Integers as decimal text ----

  predicate IsDigit(ch: char) { '0' <= ch <= '9' }

  function DigitChar(d: nat): (ch: char)
    requires d < 10
    ensures IsDigit(ch)
  {
    ('0' as int + d) as char
  }

  function DigitValue(ch: char): nat
    requires IsDigit(ch)
  {
    ch as int - '0' as int
  }

  /** Decimal text of a natural number, without leading zeros. */
  function ShowNat(n: nat): (s: string)
    ensures |s| >= 1 && forall k :: 0 <= k < |s| ==> IsDigit(s[k])
  {
    if n < 10 then [DigitChar(n)] else ShowNat(n / 10) + [DigitChar(n % 10)]
  }

  /** Python's `str(i)` for an integer. */
  function ShowInt(i: int): string
  {
    if i < 0 then "-" + ShowNat(-i) else ShowNat(i)
  }

  predicate AllDigits(s: string) { forall k :: 0 <= k < |s| ==> IsDigit(s[k]) }

  function DigitsValue(s: string): nat
    requires AllDigits(s)
  {
    if |s| == 0 then 0 else DigitsValue(s[..|s| - 1]) * 10 + DigitValue(s[|s| - 1])
  }

  /** Python's `int(s)` on text: an optional sign followed by one or more
      decimal digits; anything else raises ValueError. */
  function ParseInt(s: string): (r: Result<int>)
    ensures r.Err? ==> r.error == ValueError
  {
    var negative := |s| > 0 && s[0] == '-';
    var body := if |s| > 0 && (s[0] == '-' || s[0] == '+') then s[1..] else s;
    if |body| == 0 || !AllDigits(body) then Err(ValueError)
    else
      var magnitude: int := DigitsValue(body);
      Ok(if negative then -magnitude else magnitude)
  }

  lemma {:induction false} DigitsValueShowNat(n: nat)
    ensures DigitsValue(ShowNat(n)) == n
  {
    if n >= 10 {
      DigitsValueShowNat(n / 10);
      var s := ShowNat(n);
      assert s[..|s| - 1] == ShowNat(n / 10);
    }
  }

  /** `int(str(i)) == i`: the decimal rendering reads back as the same integer. */
  lemma ParseShowInt(i: int)
    ensures ParseInt(ShowInt(i)) == Ok(i)
  {
    if i < 0 {
      DigitsValueShowNat(-i);
      var s := ShowInt(i);
      assert s[0] == '-' && s[1..] == ShowNat(-i);
      assert AllDigits(s[1..]);
    } else {
      DigitsValueShowNat(i);
      var s := ShowNat(i);
      assert IsDigit(s[0]) && AllDigits(s);
    }
  }

  /** Text that `int` accepts never contains a separator such as ':' or ','. */
  lemma ParsedHasNoSeparator(s: string, c: char)
    requires ParseInt(s).Ok?
    requires c != '-' && c != '+' && !IsDigit(c)
    ensures c !in s
  {
  }
}

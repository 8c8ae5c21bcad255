/** String helpers the source takes from its standard libraries:
    decimal formatting of integers (`absl::StrCat`, `std::to_string`, `str`),
    joining with a separator (`absl::StrJoin`, `", ".join`) and Python's
    `str.replace`. */
module Text {

  function DigitChar(d: nat): (c: char)
    requires d < 10
    ensures '0' <= c <= '9' && c as int - '0' as int == d
  {
    ['0', '1', '2', '3', '4', '5', '6', '7', '8', '9'][d]
  }

  /** Decimal digits of `n`, most significant first, without leading zeros. */
  function NatToString(n: nat): (s: string)
    decreases n
  {
    if n < 10 then [DigitChar(n)] else NatToString(n / 10) + [DigitChar(n % 10)]
  }

  function IntToString(i: int): (s: string)
  {
    if i < 0 then "-" + NatToString(-i) else NatToString(i)
  }

  predicate IsDigit(c: char) { '0' <= c <= '9' }

  /** The value of a sequence of decimal digits; the reference reading that
      `NatToString` is proved against. */
  function DigitsValue(s: string): (v: nat)
    requires forall k :: 0 <= k < |s| ==> IsDigit(s[k])
  {
    if s == [] then 0
    else
      assert IsDigit(s[|s| - 1]);
      10 * DigitsValue(s[..|s| - 1]) + (s[|s| - 1] as int - '0' as int)
  }

  /** Formatting then reading back the digits gives the number again, and the
      text is a non-empty run of digits that starts with a zero only for zero. */
  lemma {:induction false} NatToStringRoundTrip(n: nat)
    ensures |NatToString(n)| >= 1
    ensures forall k :: 0 <= k < |NatToString(n)| ==> IsDigit(NatToString(n)[k])
    ensures DigitsValue(NatToString(n)) == n
    ensures NatToString(n)[0] == '0' <==> n == 0
    decreases n
  {
    if n >= 10 {
      NatToStringRoundTrip(n / 10);
      var s := NatToString(n);
      assert s == NatToString(n / 10) + [DigitChar(n % 10)];
      assert s[..|s| - 1] == NatToString(n / 10);
    }
  }

  /** The text of a negative number, and only of a negative number, starts
      with a minus sign; distinct numbers format to distinct text. */
  lemma IntToStringInjective(i: int, j: int)
    ensures |IntToString(i)| >= 1 && (IntToString(i)[0] == '-' <==> i < 0)
    ensures IntToString(i) == IntToString(j) ==> i == j
  {
    NatToStringRoundTrip(if i < 0 then -i else i);
    NatToStringRoundTrip(if j < 0 then -j else j);
    if IntToString(i) == IntToString(j) {
      assert IsDigit(NatToString(if i < 0 then -i else i)[0]);
      assert IsDigit(NatToString(if j < 0 then -j else j)[0]);
      if i < 0 {
        assert IntToString(j)[0] == '-';
        assert NatToString(-i) == IntToString(i)[1..] == IntToString(j)[1..] == NatToString(-j);
      }
    }
  }

  /** Each integer in decimal, in order. */
  function IntsToStrings(xs: seq<int>): (r: seq<string>)
    ensures |r| == |xs|
    ensures forall k :: 0 <= k < |xs| ==> r[k] == IntToString(xs[k])
  {
    if xs == [] then [] else [IntToString(xs[0])] + IntsToStrings(xs[1..])
  }

  /** `sep.join(items)`. */
  function Join(items: seq<string>, sep: string): (s: string)
  {
    if |items| == 0 then ""
    else if |items| == 1 then items[0]
    else items[0] + sep + Join(items[1..], sep)
  }

  /** Two items are joined by one separator. */
  lemma JoinTwo(a: string, b: string, sep: string)
    ensures Join([a, b], sep) == a + sep + b
  {
    assert [a, b][1..] == [b];
  }

  /** Joining a concatenation puts one separator between the two joins. */
  lemma {:induction false} JoinAppend(a: seq<string>, b: seq<string>, sep: string)
    requires |a| > 0 && |b| > 0
    ensures Join(a + b, sep) == Join(a, sep) + sep + Join(b, sep)
    decreases |a|
  {
    if |a| == 1 {
      assert (a + b)[1..] == b;
    } else {
      assert (a + b)[1..] == a[1..] + b;
      JoinAppend(a[1..], b, sep);
    }
  }

  /** Python `s.replace(pat, rep)`: every non-overlapping occurrence of the
      non-empty `pat`, scanning from the left, is replaced by `rep`. */
  function Replace(s: string, pat: string, rep: string): (r: string)
    requires |pat| > 0
    decreases |s|
  {
    if |s| < |pat| then s
    else if s[..|pat|] == pat then rep + Replace(s[|pat|..], pat, rep)
    else [s[0]] + Replace(s[1..], pat, rep)
  }


  /** A string without the pattern's first character has no occurrence to
      replace. */
  lemma {:induction false} ReplaceWithoutFirstChar(s: string, pat: string, rep: string)
    requires |pat| > 0 && pat[0] !in s
    ensures Replace(s, pat, rep) == s
    decreases |s|
  {
    if |s| >= |pat| {
      assert s[..|pat|][0] == s[0];
      assert forall c :: c in s[1..] ==> c in s;
      ReplaceWithoutFirstChar(s[1..], pat, rep);
    }
  }

  /** A prefix without the pattern's first character is kept as it is and
      scanning goes on after it. */
  lemma {:induction false} ReplaceSplit(a: string, b: string, pat: string, rep: string)
    requires |pat| > 0 && pat[0] !in a
    ensures Replace(a + b, pat, rep) == a + Replace(b, pat, rep)
    decreases |a|
  {
    var s := a + b;
    if a == [] {
      assert s == b;
    } else if |s| < |pat| {
      assert Replace(b, pat, rep) == b;
    } else {
      assert s[..|pat|] != pat by { assert s[..|pat|][0] == a[0]; }
      assert s[1..] == a[1..] + b;
      assert pat[0] !in a[1..] by { assert a == [a[0]] + a[1..]; }
      ReplaceSplit(a[1..], b, pat, rep);
      assert Replace(s, pat, rep) == [a[0]] + (a[1..] + Replace(b, pat, rep));
      assert [a[0]] + a[1..] == a;
    }
  }

  /** An occurrence at the front is replaced, and scanning resumes after
      it. */
  lemma ReplaceAtFront(pat: string, t: string, rep: string)
    requires |pat| > 0
    ensures Replace(pat + t, pat, rep) == rep + Replace(t, pat, rep)
  {
    assert (pat + t)[..|pat|] == pat;
    assert (pat + t)[|pat|..] == t;
  }

  /** The front of a join is its first item; after it comes the separator
      and the join of the rest, or nothing when there is one item. */
  lemma JoinFront(items: seq<string>, c: char)
    requires |items| > 0
    ensures |Join(items, [c])| >= |items[0]|
    ensures Join(items, [c])[..|items[0]|] == items[0]
    ensures |items| == 1 ==> Join(items, [c]) == items[0]
    ensures |items| > 1 ==> |Join(items, [c])| > |items[0]| && Join(items, [c])[|items[0]|] == c &&
                            Join(items, [c])[|items[0]| + 1..] == Join(items[1..], [c])
  {
  }

  /** Joining non-empty items that do not contain the one-character
      separator loses nothing: equal joins come from equal item lists. */
  lemma {:induction false} JoinInjective(a: seq<string>, b: seq<string>, c: char)
    requires forall k :: 0 <= k < |a| ==> |a[k]| > 0 && c !in a[k]
    requires forall k :: 0 <= k < |b| ==> |b[k]| > 0 && c !in b[k]
    requires Join(a, [c]) == Join(b, [c])
    ensures a == b
    decreases |a|
  {
    if a == [] || b == [] {
      if a != [] { JoinFront(a, c); }
      if b != [] { JoinFront(b, c); }
    } else {
      var j := Join(a, [c]);
      JoinFront(a, c);
      JoinFront(b, c);
      var x, y := a[0], b[0];
      assert x == y;
      if |a| == 1 || |b| == 1 {
        assert |a| == 1 && |b| == 1;
      } else {
        JoinInjective(a[1..], b[1..], c);
        assert a == [x] + a[1..];
        assert b == [y] + b[1..];
      }
    }
  }
  /** Decimal text holds only digits and the minus sign, so never a comma. */
  lemma IntToStringAlphabet(i: int)
    ensures forall k :: 0 <= k < |IntToString(i)| ==> IntToString(i)[k] == '-' || IsDigit(IntToString(i)[k])
    ensures ',' !in IntToString(i)
  {
    NatToStringRoundTrip(if i < 0 then -i else i);
  }

  /** Distinct integer lists format to distinct lists of text. */
  lemma IntsToStringsInjective(a: seq<int>, b: seq<int>)
    requires IntsToStrings(a) == IntsToStrings(b)
    ensures a == b
  {
    forall k | 0 <= k < |a|
      ensures a[k] == b[k]
    {
      IntToStringInjective(a[k], b[k]);
    }
  }

  /** The bracketed, comma-separated decimal text of an integer list (the
      source's `DebugString` format) determines the list. */
  lemma BracketedIntsInjective(a: seq<int>, b: seq<int>)
    requires "[" + Join(IntsToStrings(a), ",") + "]" == "[" + Join(IntsToStrings(b), ",") + "]"
    ensures a == b
  {
    var sa, sb := IntsToStrings(a), IntsToStrings(b);
    var ja, jb := Join(sa, ","), Join(sb, ",");
    assert ja == ("[" + ja + "]")[1..|ja| + 1];
    assert jb == ("[" + jb + "]")[1..|jb| + 1];
    forall k | 0 <= k < |sa|
      ensures |sa[k]| > 0 && ',' !in sa[k]
    {
      IntToStringInjective(a[k], a[k]);
      IntToStringAlphabet(a[k]);
    }
    forall k | 0 <= k < |sb|
      ensures |sb[k]| > 0 && ',' !in sb[k]
    {
      IntToStringInjective(b[k], b[k]);
      IntToStringAlphabet(b[k]);
    }
    JoinInjective(sa, sb, ',');
    IntsToStringsInjective(a, b);
  }
}

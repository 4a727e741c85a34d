/**
 Splitting, joining and decimal numbers, on strings as sequences of Unicode scalar values.
 */
module Text {
  /** `parts` joined by one separator character. */
  function Join(parts: seq<string>, sep: char): string {
    if |parts| == 0 then ""
    else if |parts| == 1 then parts[0]
    else Join(parts[..|parts| - 1], sep) + [sep] + parts[|parts| - 1]
  }

  /** The pieces of `s` between separators; always at least one piece. */
  function Split(s: string, sep: char): (parts: seq<string>)
    ensures |parts| >= 1
  {
    if s == "" then [""]
    else
      var init := Split(s[..|s| - 1], sep);
      if s[|s| - 1] == sep then init + [""]
      else init[..|init| - 1] + [init[|init| - 1] + [s[|s| - 1]]]
  }

  lemma JoinSnoc(parts: seq<string>, last: string, sep: char)
    ensures Join(parts + [last], sep) == if parts == [] then last else Join(parts, sep) + [sep] + last
  {
    assert (parts + [last])[..|parts|] == parts;
  }

  /** Text appended to the last piece is text appended to the whole. */
  lemma JoinExtends(parts: seq<string>, t: string, sep: char)
    requires parts != []
    ensures var n := |parts| - 1; Join(parts[..n] + [parts[n] + t], sep) == Join(parts, sep) + t
  {
    var n := |parts| - 1;
    assert (parts[..n] + [parts[n] + t])[..n] == parts[..n];
  }

  /** What one more character does to the pieces, it does to the whole. */
  lemma JoinGrows(parts: seq<string>, c: char, sep: char)
    requires parts != []
    ensures var n := |parts| - 1;
      Join(if c == sep then parts + [""] else parts[..n] + [parts[n] + [c]], sep) == Join(parts, sep) + [c]
  {
    if c == sep {
      JoinSnoc(parts, "", sep);
    } else {
      JoinExtends(parts, [c], sep);
    }
  }

  /** Joining what was split gives the string back. */
  lemma {:induction false} JoinOfSplit(s: string, sep: char)
    ensures Join(Split(s, sep), sep) == s
  {
    if s != "" {
      var rest := s[..|s| - 1];
      JoinOfSplit(rest, sep);
      JoinGrows(Split(rest, sep), s[|s| - 1], sep);
      assert s == rest + [s[|s| - 1]];
    }
  }

  /** Pieces never hold the separator. */
  lemma {:induction false} SplitIsFree(s: string, sep: char)
    ensures forall i :: 0 <= i < |Split(s, sep)| ==> sep !in Split(s, sep)[i]
  {
    if s != "" {
      SplitIsFree(s[..|s| - 1], sep);
    }
  }

  /** Text without a separator only extends the last piece. */
  lemma {:induction false} SplitAppend(s: string, t: string, sep: char)
    requires sep !in t
    ensures var p := Split(s, sep); Split(s + t, sep) == p[..|p| - 1] + [p[|p| - 1] + t]
  {
    var p := Split(s, sep);
    if t == "" {
      assert s + t == s;
      assert p[|p| - 1] + t == p[|p| - 1];
    } else {
      var u, c := t[..|t| - 1], t[|t| - 1];
      SplitAppend(s, u, sep);
      assert (s + t)[..|s + t| - 1] == s + u;
      assert t == u + [c];
      assert (p[|p| - 1] + u) + [c] == p[|p| - 1] + t;
      var q := Split(s + u, sep);
      assert q[..|q| - 1] == p[..|p| - 1];
    }
  }

  /** Splitting what was joined gives the pieces back, when none holds the separator. */
  lemma {:induction false} SplitOfJoin(parts: seq<string>, sep: char)
    requires |parts| >= 1
    requires forall i :: 0 <= i < |parts| ==> sep !in parts[i]
    ensures Split(Join(parts, sep), sep) == parts
  {
    var last := parts[|parts| - 1];
    if |parts| == 1 {
      SplitAppend("", last, sep);
      assert "" + last == last;
      assert Split("", sep) == [""];
    } else {
      var init := parts[..|parts| - 1];
      SplitOfJoin(init, sep);
      var head := Join(init, sep) + [sep];
      assert head[..|head| - 1] == Join(init, sep);
      assert Split(head, sep) == init + [""];
      SplitAppend(head, last, sep);
      assert "" + last == last;
      assert parts == init + [last];
    }
  }

  predicate IsDigit(c: char) {
    '0' <= c <= '9'
  }

  predicate AllDigits(s: string) {
    forall i :: 0 <= i < |s| ==> IsDigit(s[i])
  }

  function DigitChar(d: nat): char
    requires d < 10
  {
    '0' + (d as char)
  }

  /** The number a string of digits spells. */
  function ValueOf(s: string): nat
    requires AllDigits(s)
  {
    if s == "" then 0 else 10 * ValueOf(s[..|s| - 1]) + ((s[|s| - 1] - '0') as int)
  }

  /** The shortest decimal spelling of a number. */
  function Decimal(n: nat): (s: string)
    ensures s != "" && AllDigits(s)
  {
    if n < 10 then [DigitChar(n)] else Decimal(n / 10) + [DigitChar(n % 10)]
  }

  lemma {:induction false} ValueOfDecimal(n: nat)
    ensures ValueOf(Decimal(n)) == n
  {
    if n < 10 {
      assert Decimal(n)[..0] == "";
    } else {
      ValueOfDecimal(n / 10);
      var s := Decimal(n);
      assert s[..|s| - 1] == Decimal(n / 10);
    }
  }

  /** A spelling without a superfluous leading zero is the shortest one. */
  lemma {:induction false} DecimalOfValue(s: string)
    requires AllDigits(s) && s != ""
    requires |s| > 1 ==> s[0] != '0'
    ensures Decimal(ValueOf(s)) == s
    ensures |s| > 1 ==> ValueOf(s) >= 10
  {
    var d := (s[|s| - 1] - '0') as int;
    assert s == s[..|s| - 1] + [s[|s| - 1]];
    if |s| == 1 {
      assert s[..0] == "";
      assert ValueOf(s) == d;
    } else {
      var init := s[..|s| - 1];
      DecimalOfValue(init);
      if |init| == 1 {
        assert init[..0] == "";
        assert ValueOf(init) == (init[0] - '0') as int;
        assert ValueOf(init) > 0;
      }
      assert ValueOf(s) / 10 == ValueOf(init) && ValueOf(s) % 10 == d;
    }
  }
}

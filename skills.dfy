/**
  The student skills codec: the profile form holds the skills as one
  comma-separated string, the `students` table as a list. Parsing splits on
  ',', trims every piece and drops the empty ones; formatting joins with ", ".
*/
module Skills {
  import opened Common
  import opened Tables

  /**
    The white space `trim` removes, fixed to a small set of code points: the
    space, the controls from tab to carriage return, the no-break space and
    the byte-order mark.
  */
  predicate IsSpace(c: char)
  {
    c == ' ' || ('\t' <= c <= '\r') || c == '\U{00A0}' || c == '\U{FEFF}'
  }

  predicate AllSpace(s: string)
  {
    forall i :: 0 <= i < |s| ==> IsSpace(s[i])
  }

  /** No white space at either end. */
  predicate IsTrimmed(s: string)
  {
    s == [] || (!IsSpace(s[0]) && !IsSpace(s[|s| - 1]))
  }

  /** What the parser can produce and the formatter can carry: non-empty, trimmed, free of commas. */
  predicate IsSkill(s: string)
  {
    s != [] && IsTrimmed(s) && ',' !in s
  }

  predicate NonEmpty(s: string)
  {
    s != []
  }

  /** The first index at or after `k` that does not hold white space, or `|s|`. */
  function SpaceEnd(s: string, k: nat): (i: nat)
    requires k <= |s|
    ensures k <= i <= |s|
    ensures forall t :: k <= t < i ==> IsSpace(s[t])
    ensures i < |s| ==> !IsSpace(s[i])
    decreases |s| - k
  {
    if k == |s| || !IsSpace(s[k]) then k else SpaceEnd(s, k + 1)
  }

  /** The index just past the last non-white-space character of `s[lo..hi]`, or `lo`. */
  function SpaceStart(s: string, lo: nat, hi: nat): (j: nat)
    requires lo <= hi <= |s|
    ensures lo <= j <= hi
    ensures forall t :: j <= t < hi ==> IsSpace(s[t])
    ensures lo < j ==> !IsSpace(s[j - 1])
    decreases hi
  {
    if hi == lo || !IsSpace(s[hi - 1]) then hi else SpaceStart(s, lo, hi - 1)
  }

  /** JavaScript's `String.prototype.trim` over the white space above. */
  function Trim(s: string): (r: string)
    ensures IsTrimmed(r)
  {
    var i := SpaceEnd(s, 0);
    var j := SpaceStart(s, i, |s|);
    assert i < j ==> s[i..j][0] == s[i] && s[i..j][j - i - 1] == s[j - 1];
    s[i..j]
  }

  /** `trim` removes only white space: what lies before and after the kept slice is all white space. */
  lemma TrimRemovesOnlySpace(s: string)
    ensures var i := SpaceEnd(s, 0);
            var j := SpaceStart(s, i, |s|);
              AllSpace(s[..i]) && AllSpace(s[j..])
  {
    var i := SpaceEnd(s, 0);
    var j := SpaceStart(s, i, |s|);
    forall t | 0 <= t < i ensures IsSpace(s[..i][t]) {
      assert s[..i][t] == s[t];
    }
    forall t | 0 <= t < |s| - j ensures IsSpace(s[j..][t]) {
      assert s[j..][t] == s[j + t];
    }
  }

  /** `s.split(sep)`: the pieces between separators, always at least one. */
  function Split(s: string, sep: char): (r: seq<string>)
    ensures |r| >= 1
    ensures forall i :: 0 <= i < |r| ==> sep !in r[i]
  {
    if s == [] then [""]
    else
      var rest := Split(s[1..], sep);
      if s[0] == sep then [""] + rest
      else [[s[0]] + rest[0]] + rest[1..]
  }

  /** `xs.join(sep)`: every character of the result comes from a piece or from the separator. */
  function Join(xs: seq<string>, sep: string): (r: string)
    ensures |xs| == 1 ==> r == xs[0]
    ensures forall ch :: ch in r ==> ch in sep || exists i :: 0 <= i < |xs| && ch in xs[i]
  {
    if |xs| == 0 then ""
    else if |xs| == 1 then xs[0]
    else xs[0] + sep + Join(xs[1..], sep)
  }

  /** `pieces.map((s) => s.trim())` */
  function TrimAll(pieces: seq<string>): (r: seq<string>)
    ensures |r| == |pieces|
    ensures forall i :: 0 <= i < |r| ==> IsTrimmed(r[i])
  {
    seq(|pieces|, i requires 0 <= i < |pieces| => Trim(pieces[i]))
  }

  /** `skills.split(',').map((s) => s.trim()).filter((s) => s)` */
  function ParseSkills(s: string): (r: seq<string>)
    ensures forall x :: x in r ==> IsSkill(x)
  {
    var pieces := Split(s, ',');
    var trimmed := TrimAll(pieces);
    forall x | x in trimmed ensures ',' !in x {
      var i :| 0 <= i < |trimmed| && trimmed[i] == x;
      TrimIsInfix(pieces[i]);
    }
    Filter(trimmed, NonEmpty)
  }

  /** `skills ? skills.join(', ') : ''` */
  function FormatSkills(skills: Option<seq<string>>): (r: string)
    ensures skills.None? ==> r == ""
  {
    if skills.Some? then Join(skills.value, ", ") else ""
  }

  // ---------------------------------------------------------------- lemmas

  /** Whatever `trim` keeps was already in the string. */
  lemma TrimIsInfix(s: string)
    ensures forall c :: c in Trim(s) ==> c in s
  {
    var i := SpaceEnd(s, 0);
    var j := SpaceStart(s, i, |s|);
    forall c | c in Trim(s) ensures c in s {
      var k :| 0 <= k < |s[i..j]| && s[i..j][k] == c;
      assert s[i + k] == c;
    }
  }

  /** Scanning white space in front of a string that does not start with white space stops where that string starts. */
  lemma {:induction false} SpaceEndAfter(p: string, x: string, k: nat)
    requires k <= |p| && AllSpace(p) && (x == [] || !IsSpace(x[0]))
    ensures SpaceEnd(p + x, k) == |p|
    decreases |p| - k
  {
    if k < |p| {
      assert (p + x)[k] == p[k];
      SpaceEndAfter(p, x, k + 1);
    } else if x != [] {
      assert (p + x)[k] == x[0];
    }
  }

  /** Leading white space followed by a trimmed string trims to that string. */
  lemma TrimAfterSpace(p: string, x: string)
    requires AllSpace(p) && IsTrimmed(x)
    ensures Trim(p + x) == x
  {
    var s := p + x;
    SpaceEndAfter(p, x, 0);
    if x != [] {
      assert s[|s| - 1] == x[|x| - 1];
    }
    assert SpaceStart(s, |p|, |s|) == |s|;
    assert s[|p|..|s|] == x;
  }

  /** A trimmed string is left alone by `trim`. */
  lemma TrimmedIsFixed(x: string)
    requires IsTrimmed(x)
    ensures Trim(x) == x
  {
    assert [] + x == x;
    TrimAfterSpace([], x);
  }

  /** The join of a split restores the string: splitting loses nothing but the separators. */
  lemma {:induction false} JoinSplit(s: string, sep: char)
    ensures Join(Split(s, sep), [sep]) == s
  {
    if s != [] {
      JoinSplit(s[1..], sep);
      var rest := Split(s[1..], sep);
      if s[0] == sep {
        assert Split(s, sep) == [""] + rest;
        assert ([""] + rest)[1..] == rest;
        assert Join([""] + rest, [sep]) == "" + [sep] + Join(rest, [sep]);
        assert s == [s[0]] + s[1..];
      } else {
        var r := Split(s, sep);
        assert r == [[s[0]] + rest[0]] + rest[1..];
        if |rest| == 1 {
          assert s == [s[0]] + rest[0];
        } else {
          assert r[1..] == rest[1..];
          assert Join(rest, [sep]) == rest[0] + [sep] + Join(rest[1..], [sep]);
          assert s == [s[0]] + s[1..];
        }
      }
    }
  }

  /** A piece without the separator, then the separator: splitting yields that piece first. */
  lemma {:induction false} SplitAfterPiece(a: string, b: string, sep: char)
    requires sep !in a
    ensures Split(a + [sep] + b, sep) == [a] + Split(b, sep)
  {
    if a == [] {
      assert a + [sep] + b == [sep] + b;
      assert ([sep] + b)[1..] == b;
    } else {
      assert (a + [sep] + b)[1..] == a[1..] + [sep] + b;
      SplitAfterPiece(a[1..], b, sep);
      assert a == [a[0]] + a[1..];
    }
  }

  /** A string without the separator is a single piece. */
  lemma {:induction false} SplitNoSeparator(a: string, sep: char)
    requires sep !in a
    ensures Split(a, sep) == [a]
  {
    if a != [] {
      SplitNoSeparator(a[1..], sep);
      assert a == [a[0]] + a[1..];
    }
  }

  lemma TrimAllAppend(a: seq<string>, b: seq<string>)
    ensures TrimAll(a + b) == TrimAll(a) + TrimAll(b)
  {
    var l := TrimAll(a + b);
    var r := TrimAll(a) + TrimAll(b);
    forall k | 0 <= k < |l| ensures l[k] == r[k] {
      assert l[k] == Trim((a + b)[k]);
      if k < |a| {
        assert (a + b)[k] == a[k];
        assert r[k] == TrimAll(a)[k] == Trim(a[k]);
      } else {
        assert (a + b)[k] == b[k - |a|];
        assert r[k] == TrimAll(b)[k - |a|] == Trim(b[k - |a|]);
      }
    }
  }

  /** White space holds no comma. */
  lemma SpaceHasNoComma(p: string)
    requires AllSpace(p)
    ensures ',' !in p
  {
    forall i | 0 <= i < |p| ensures p[i] != ',' {
      assert IsSpace(p[i]);
    }
  }

  /** Regrouping `p + (x + ", " + rest)` around its comma. */
  lemma RegroupAtComma(p: string, x: string, rest: string)
    ensures p + (x + ", " + rest) == (p + x) + [','] + (" " + rest)
  {
    var l := p + (x + ", " + rest);
    var r := (p + x) + [','] + (" " + rest);
    assert |l| == |r|;
    forall k | 0 <= k < |l| ensures l[k] == r[k] {
      if k < |p| + |x| {
      } else if k == |p| + |x| {
      } else if k == |p| + |x| + 1 {
      } else {
        assert l[k] == rest[k - |p| - |x| - 2];
      }
    }
  }

  /** How a join of two or more skills splits at its first separator. */
  lemma JoinStep(p: string, xs: seq<string>)
    requires |xs| >= 2
    ensures p + Join(xs, ", ") == (p + xs[0]) + [','] + (" " + Join(xs[1..], ", "))
  {
    assert Join(xs, ", ") == xs[0] + ", " + Join(xs[1..], ", ");
    RegroupAtComma(p, xs[0], Join(xs[1..], ", "));
  }

  /** Leading white space and a skill, alone: it parses to that skill. */
  lemma ParseSingle(p: string, x: string)
    requires AllSpace(p) && IsSkill(x)
    ensures Filter(TrimAll(Split(p + x, ',')), NonEmpty) == [x]
  {
    SpaceHasNoComma(p);
    assert ',' !in p + x;
    SplitNoSeparator(p + x, ',');
    TrimAfterSpace(p, x);
    assert TrimAll([p + x]) == [x];
  }

  /** Leading white space and a skill, then a comma: the skill is the first parsed item. */
  lemma ParseStep(p: string, x: string, tail: string)
    requires AllSpace(p) && IsSkill(x)
    ensures Filter(TrimAll(Split(p + x + [','] + tail, ',')), NonEmpty)
         == [x] + Filter(TrimAll(Split(tail, ',')), NonEmpty)
  {
    SpaceHasNoComma(p);
    assert ',' !in p + x;
    SplitAfterPiece(p + x, tail, ',');
    TrimAfterSpace(p, x);
    TrimAllAppend([p + x], Split(tail, ','));
    assert TrimAll([p + x]) == [x];
    FilterAppend([x], TrimAll(Split(tail, ',')), NonEmpty);
  }

  /** One step of the induction: a parse of the rest extends to a parse of the whole join. */
  lemma ParseJoinStep(p: string, xs: seq<string>)
    requires AllSpace(p) && |xs| >= 2 && IsSkill(xs[0])
    requires Filter(TrimAll(Split(" " + Join(xs[1..], ", "), ',')), NonEmpty) == xs[1..]
    ensures Filter(TrimAll(Split(p + Join(xs, ", "), ',')), NonEmpty) == xs
  {
    var tail := " " + Join(xs[1..], ", ");
    JoinStep(p, xs);
    ParseStep(p, xs[0], tail);
    assert xs == [xs[0]] + xs[1..];
  }

  /** The induction behind the round trip: some leading white space does not disturb it. */
  lemma {:induction false} ParseJoinAfterSpace(p: string, xs: seq<string>)
    requires AllSpace(p) && xs != []
    requires forall x :: x in xs ==> IsSkill(x)
    ensures Filter(TrimAll(Split(p + Join(xs, ", "), ',')), NonEmpty) == xs
    decreases xs
  {
    assert xs[0] in xs;
    if |xs| == 1 {
      ParseSingle(p, xs[0]);
    } else {
      assert AllSpace(" ");
      assert forall x :: x in xs[1..] ==> x in xs;
      ParseJoinAfterSpace(" ", xs[1..]);
      ParseJoinStep(p, xs);
    }
  }

  /** Format then parse returns the list, when every skill is non-empty, trimmed and comma-free. */
  lemma ParseFormatRoundTrip(xs: seq<string>)
    requires forall x :: x in xs ==> IsSkill(x)
    ensures ParseSkills(FormatSkills(Some(xs))) == xs
  {
    if xs == [] {
      assert Split("", ',') == [""];
      assert TrimAll([""]) == [""];
    } else {
      assert "" + Join(xs, ", ") == Join(xs, ", ");
      ParseJoinAfterSpace("", xs);
    }
  }

  /** Saving the parsed skills and loading them back into the form parses to the same list. */
  lemma ParseIsStable(s: string)
    ensures ParseSkills(FormatSkills(Some(ParseSkills(s)))) == ParseSkills(s)
  {
    ParseFormatRoundTrip(ParseSkills(s));
  }

  /** Absent skills format to the empty string, which parses to no skills. */
  lemma AbsentSkillsParseEmpty()
    ensures ParseSkills(FormatSkills(None)) == []
  {
    assert Split("", ',') == [""];
    assert TrimAll([""]) == [""];
  }
}

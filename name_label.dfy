/** The character-name label and the level suffix the handler writes into it. */
module NameLabel {
  import opened Wrappers
  import opened LevelText
  import Int32

  /** `t` occurs in `s` starting at index `i`. */
  ghost predicate OccursAt(s: string, t: string, i: int) {
    0 <= i && i + |t| <= |s| && s[i..i + |t|] == t
  }

  /** `string.Contains` (ordinal). */
  function Contains(s: string, t: string): (r: bool)
    ensures r <==> exists i :: OccursAt(s, t, i)
    decreases |s|
  {
    if |s| < |t| then false
    else if t <= s then (assert OccursAt(s, t, 0); true)
    else
      var r := Contains(s[1..], t);
      assert forall i :: OccursAt(s[1..], t, i) ==> OccursAt(s, t, i + 1) by {
        forall i | OccursAt(s[1..], t, i) ensures OccursAt(s, t, i + 1) {
          assert s[1..][i..i + |t|] == s[i + 1..i + 1 + |t|];
        }
      }
      assert forall i :: OccursAt(s, t, i) ==> i > 0 && OccursAt(s[1..], t, i - 1) by {
        forall i | OccursAt(s, t, i) ensures i > 0 && OccursAt(s[1..], t, i - 1) {
          assert s[1..][i - 1..i - 1 + |t|] == s[i..i + |t|];
        }
      }
      r
  }

  /** `string.IndexOf(char)`: the first index of `c`, None where .NET gives -1. */
  function FirstIndexOf(s: string, c: char): (r: Option<nat>)
    ensures r.None? <==> c !in s
    ensures r.Some? ==> r.value < |s| && s[r.value] == c && c !in s[..r.value]
  {
    if s == [] then None
    else if s[0] == c then Some(0)
    else match FirstIndexOf(s[1..], c)
      case None => None
      case Some(k) => (assert s[..k + 1] == [s[0]] + s[1..][..k]; Some(k + 1))
  }

  /** The marker the handler looks for: "(<levelLabel> level-<n>)". */
  function Marker(levelLabel: string, level: nat): (m: string)
    ensures |m| > |levelLabel| + 8 && m[0] == '(' && m[|m| - 1] == ')'
    ensures m[1..|levelLabel| + 1] == levelLabel
    ensures m[|levelLabel| + 1..|levelLabel| + 8] == " level-"
    ensures AllDigits(m[|levelLabel| + 8..|m| - 1]) && DigitsValue(m[|levelLabel| + 8..|m| - 1]) == level
    ensures level <= Int32.Max ==> TryParseInt(m[|levelLabel| + 8..|m| - 1]) == Some(level)
    ensures '(' !in levelLabel ==> '(' !in m[1..]
    ensures ')' !in levelLabel ==> ')' !in m[..|m| - 1]
  {
    var digits := NatToString(level);
    var inner := levelLabel + " level-" + digits;
    var m := "(" + inner + ")";
    assert m[|levelLabel| + 1..|levelLabel| + 8] == " level-";
    assert m[|levelLabel| + 8..|m| - 1] == digits;
    Bracketed(inner);
    NoParensInDigits(digits);
    FormattedLevelParses(level);
    DigitsValueOfNatToString(level);
    m
  }

  /** The suffix the handler appends: " (<levelLabel> level-<n>)". */
  function Suffix(levelLabel: string, level: nat): (r: string)
    ensures |r| > 2 && r[..2] == " (" && r[|r| - 1] == ')'
  {
    " " + Marker(levelLabel, level)
  }

  /** The name without an earlier suffix: cut one character before its
      first '(', or the whole name when it has none. When the first '(' is the
      first character, `Substring(0, -1)` throws and there is no base name. */
  function BaseName(name: string): (r: Option<string>)
    ensures r.None? <==> |name| > 0 && name[0] == '('
    ensures r.Some? ==> r.value <= name && '(' !in r.value
    ensures r.Some? && '(' !in name ==> r.value == name
    ensures r.Some? && '(' in name ==>
      |r.value| + 1 < |name| && name[|r.value| + 1] == '(' && '(' !in name[..|r.value| + 1]
  {
    match FirstIndexOf(name, '(')
    case None => Some(name)
    case Some(i) =>
      if i == 0 then None
      else
        var base := name[..i - 1];
        assert '(' !in base by { assert base <= name[..i]; }
        assert name[..|base| + 1] == name[..i];
        Some(base)
  }

  /** The new name label: the base name followed by the suffix, so that it
      shows the marker; None when the base name throws. */
  function Splice(name: string, levelLabel: string, level: nat): (r: Option<string>)
    ensures r.None? <==> |name| > 0 && name[0] == '('
    ensures r.Some? ==> Contains(r.value, Marker(levelLabel, level))
    ensures r.Some? ==> BaseName(name).Some? && r.value == BaseName(name).value + Suffix(levelLabel, level)
  {
    match BaseName(name)
    case None => None
    case Some(base) =>
      assert OccursAt(base + Suffix(levelLabel, level), Marker(levelLabel, level), |base| + 1);
      Some(base + Suffix(levelLabel, level))
  }

  /** The text inside a pair of parentheses, seen from either end. */
  lemma Bracketed(inner: string)
    ensures ("(" + inner + ")")[1..] == inner + ")"
    ensures ("(" + inner + ")")[..|inner| + 1] == "(" + inner
  {
    assert "(" + inner + ")" == "(" + (inner + ")");
  }

  /** Digits are not parentheses. */
  lemma NoParensInDigits(d: string)
    requires AllDigits(d)
    ensures '(' !in d && ')' !in d
  {
    forall j | 0 <= j < |d| ensures d[j] != '(' && d[j] != ')' {
      assert IsDigit(d[j]);
    }
  }

  /** A written level in `int` range reads back as itself. */
  lemma FormattedLevelParses(level: nat)
    ensures level <= Int32.Max ==> TryParseInt(NatToString(level)) == Some(level)
  {
    if level <= Int32.Max {
      ParseFormatRoundTrip(level);
    }
  }

  /** An index holding `c` with no `c` before it is the first index of `c`. */
  lemma FirstIndexOfAt(s: string, c: char, i: nat)
    requires i < |s| && s[i] == c && c !in s[..i]
    ensures FirstIndexOf(s, c) == Some(i)
  {
    assert s[i] in s;
  }

  /** The base name of a spliced name is the base it was spliced onto. */
  lemma BaseNameOfSpliced(base: string, levelLabel: string, level: nat)
    requires '(' !in base
    ensures BaseName(base + Suffix(levelLabel, level)) == Some(base)
  {
    var t := base + Suffix(levelLabel, level);
    assert t[..|base| + 1] == base + [' '];
    FirstIndexOfAt(t, '(', |base| + 1);
    assert t[..|base|] == base;
  }

  /** A second splice replaces the first suffix instead of stacking a second
      one: the result is what splicing the original name would give. */
  lemma SpliceReplacesSuffix(name: string, levelLabel1: string, level1: nat, levelLabel2: string, level2: nat)
    requires Splice(name, levelLabel1, level1).Some?
    ensures Splice(Splice(name, levelLabel1, level1).value, levelLabel2, level2) == Splice(name, levelLabel2, level2)
  {
    BaseNameOfSpliced(BaseName(name).value, levelLabel1, level1);
  }

  /** In a base with no '(' followed by a space and a marker whose only '('
      comes first and whose only ')' comes last, a marker can occur only as
      that whole marker. */
  lemma MarkerAfterBase(base: string, m1: string, m2: string)
    requires '(' !in base
    requires |m1| > 0 && '(' !in m1[1..] && ')' !in m1[..|m1| - 1]
    requires |m2| > 0 && m2[0] == '(' && m2[|m2| - 1] == ')'
    ensures Contains(base + [' '] + m1, m2) ==> m2 == m1
  {
    var t := base + [' '] + m1;
    if Contains(t, m2) {
      var i :| OccursAt(t, m2, i);
      assert t[i] == t[i..i + |m2|][0];
      ParenOnlyAtMarker(base, m1);
      assert t[|base| + 1..] == m1;
      assert m2 == m1[..|m2|];
      CloseOnlyAtEnd(m1);
      assert m1[..|m2|] == m1;
    }
  }

  /** The only '(' of such a text is the marker's first character. */
  lemma ParenOnlyAtMarker(base: string, m1: string)
    requires '(' !in base
    requires |m1| > 0 && '(' !in m1[1..]
    ensures forall j :: 0 <= j < |base + [' '] + m1| && j != |base| + 1 ==> (base + [' '] + m1)[j] != '('
  {
    var t := base + [' '] + m1;
    forall j | 0 <= j < |t| && j != |base| + 1 ensures t[j] != '(' {
      if j < |base| {
        assert t[j] == base[j];
      } else if j > |base| + 1 {
        assert t[j] == m1[1..][j - |base| - 2];
      }
    }
  }

  /** The only ')' of the marker is its last character. */
  lemma CloseOnlyAtEnd(m1: string)
    requires |m1| > 0 && ')' !in m1[..|m1| - 1]
    ensures forall j :: 0 <= j < |m1| - 1 ==> m1[j] != ')'
  {
    forall j | 0 <= j < |m1| - 1 ensures m1[j] != ')' {
      assert m1[j] == m1[..|m1| - 1][j];
    }
  }

  /** The only marker a spliced name contains is the one it was spliced
      with, when the caption has no parentheses. */
  lemma SplicedMarkerOnly(name: string, levelLabel1: string, level1: nat, levelLabel2: string, level2: nat)
    requires Splice(name, levelLabel1, level1).Some?
    requires '(' !in levelLabel1 && ')' !in levelLabel1
    ensures Contains(Splice(name, levelLabel1, level1).value, Marker(levelLabel2, level2)) ==>
      Marker(levelLabel2, level2) == Marker(levelLabel1, level1)
  {
    var m1 := Marker(levelLabel1, level1);
    assert Splice(name, levelLabel1, level1).value == BaseName(name).value + [' '] + m1;
    MarkerAfterBase(BaseName(name).value, m1, Marker(levelLabel2, level2));
  }
}

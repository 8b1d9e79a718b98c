/** Paths inside a volume, as strings and as lists of names
    (volume_entry_path.cpp). */
module VolumePaths {
  import opened Wrappers
  import opened Paths

  // -- Splitting and joining -------------------------------------------------------------------------

  /** A character in front: a separator opens a piece, another one continues. */
  function Attached(c: char, parts: seq<string>, sep: char): (r: seq<string>)
    requires parts != []
    ensures r != []
    ensures (forall i :: 0 <= i < |parts| ==> sep !in parts[i]) ==> forall i :: 0 <= i < |r| ==> sep !in r[i]
  {
    if c == sep then [""] + parts else [[c] + parts[0]] + parts[1..]
  }

  /** The pieces between separators; there is always at least one. */
  function Split(s: string, sep: char): (parts: seq<string>)
    ensures parts != []
    ensures forall i :: 0 <= i < |parts| ==> sep !in parts[i]
  {
    if s == "" then [""] else Attached(s[0], Split(s[1..], sep), sep)
  }

  lemma AttachedConcat(c: char, first: seq<string>, rest: seq<string>, sep: char)
    requires first != []
    ensures Attached(c, first + rest, sep) == Attached(c, first, sep) + rest
  {
  }

  function Join(parts: seq<string>, sep: char): string {
    if parts == [] then ""
    else if |parts| == 1 then parts[0]
    else parts[0] + [sep] + Join(parts[1..], sep)
  }

  lemma {:induction false} SplitJoins(s: string, sep: char)
    ensures Join(Split(s, sep), sep) == s
  {
    if s != "" {
      var rest := Split(s[1..], sep);
      SplitJoins(s[1..], sep);
      if s[0] == sep {
        assert ([""] + rest)[1..] == rest;
        assert "" + [sep] + Join(rest, sep) == [s[0]] + s[1..];
      } else {
        var first := [s[0]] + rest[0];
        assert ([first] + rest[1..])[1..] == rest[1..];
        if |rest| > 1 {
          assert first + [sep] + Join(rest[1..], sep) == [s[0]] + (rest[0] + [sep] + Join(rest[1..], sep));
        }
      }
    }
  }

  lemma {:induction false} SplitOfOne(s: string, sep: char)
    requires sep !in s
    ensures Split(s, sep) == [s]
  {
    if s != "" {
      SplitOfOne(s[1..], sep);
      assert [s[0]] + s[1..] == s;
    }
  }

  lemma {:induction false} SplitConcat(a: string, b: string, sep: char)
    ensures Split(a + [sep] + b, sep) == Split(a, sep) + Split(b, sep)
  {
    if a == "" {
      assert a + [sep] + b == [sep] + b;
    } else {
      SplitConcat(a[1..], b, sep);
      assert (a + [sep] + b)[1..] == a[1..] + [sep] + b;
      AttachedConcat(a[0], Split(a[1..], sep), Split(b, sep), sep);
    }
  }

  lemma {:induction false} JoinConcat(a: seq<string>, b: seq<string>, sep: char)
    requires a != [] && b != []
    ensures Join(a + b, sep) == Join(a, sep) + [sep] + Join(b, sep)
  {
    if |a| == 1 {
      assert (a + b)[1..] == b;
    } else {
      JoinConcat(a[1..], b, sep);
      assert (a + b)[1..] == a[1..] + b;
      assert a[0] + [sep] + (Join(a[1..], sep) + [sep] + Join(b, sep)) == a[0] + [sep] + Join(a[1..], sep) + [sep] + Join(b, sep);
    }
  }

  lemma {:induction false} JoinSplits(parts: seq<string>, sep: char)
    requires parts != [] && forall i :: 0 <= i < |parts| ==> sep !in parts[i]
    ensures Split(Join(parts, sep), sep) == parts
  {
    SplitOfOne(parts[0], sep);
    if |parts| > 1 {
      JoinSplits(parts[1..], sep);
      SplitConcat(parts[0], Join(parts[1..], sep), sep);
    }
  }

  lemma SplitIsInjective(a: string, b: string, sep: char)
    requires Split(a, sep) == Split(b, sep)
    ensures a == b
  {
    SplitJoins(a, sep);
    SplitJoins(b, sep);
  }

  /** One path is the other, or continues it after a separator. */
  predicate AtOrUnder(outer: string, inner: string, sep: char) {
    inner == outer || outer + [sep] <= inner
  }

  /** The test on strings is the order of prefixes on names. */
  lemma AtOrUnderIsPrefix(outer: string, inner: string, sep: char)
    ensures AtOrUnder(outer, inner, sep) <==> Split(outer, sep) <= Split(inner, sep)
  {
    if outer + [sep] <= inner {
      var rest := inner[|outer| + 1..];
      assert inner == outer + [sep] + rest;
      SplitConcat(outer, rest, sep);
    }
    if Split(outer, sep) <= Split(inner, sep) {
      PrefixJoins(outer, inner, sep);
    }
  }

  lemma PrefixJoins(outer: string, inner: string, sep: char)
    requires Split(outer, sep) <= Split(inner, sep)
    ensures AtOrUnder(outer, inner, sep)
  {
    var a, b := Split(outer, sep), Split(inner, sep);
    SplitJoins(outer, sep);
    SplitJoins(inner, sep);
    var rest := b[|a|..];
    assert a + rest == b;
    if rest == [] {
      assert a == b;
    } else {
      JoinConcat(a, rest, sep);
      assert inner == outer + [sep] + Join(rest, sep);
    }
  }

  // -- Letter case and the two separators ------------------------------------------------------------

  const SEPARATOR := '\\'

  function UnifiedChar(c: char): char {
    if c == '/' then SEPARATOR else c
  }

  function Unified(s: string): (r: string)
    ensures |r| == |s| && forall i :: 0 <= i < |s| ==> r[i] == UnifiedChar(s[i])
  {
    seq(|s|, i requires 0 <= i < |s| => UnifiedChar(s[i]))
  }

  function FoldAll(parts: seq<string>): (r: seq<string>)
    ensures |r| == |parts| && forall i :: 0 <= i < |r| ==> r[i] == Fold(parts[i])
  {
    seq(|parts|, i requires 0 <= i < |parts| => Fold(parts[i]))
  }

  /** Folding letters neither makes nor removes a separator. */
  lemma {:induction false} SplitOfFold(s: string, sep: char)
    requires sep == '/' || sep == SEPARATOR
    ensures Split(Fold(s), sep) == FoldAll(Split(s, sep))
  {
    if s != "" {
      SplitOfFold(s[1..], sep);
      assert Fold(s)[1..] == Fold(s[1..]);
      FoldAttached(s[0], Split(s[1..], sep), sep);
    }
  }

  lemma FoldAttached(c: char, parts: seq<string>, sep: char)
    requires parts != [] && (sep == '/' || sep == SEPARATOR)
    ensures FoldAll(Attached(c, parts, sep)) == Attached(FoldChar(c), FoldAll(parts), sep)
  {
    if c != sep {
      assert Fold([c] + parts[0]) == [FoldChar(c)] + Fold(parts[0]);
    }
  }

  // -- What a path may be -----------------------------------------------------------------------------

  const NAME_MAXIMUM := 255
  const FORBIDDEN := "<>:\"/\\|?*"
  const DEVICES := ["CON", "PRN", "AUX", "NUL",
                    "COM1", "COM2", "COM3", "COM4", "COM5", "COM6", "COM7", "COM8", "COM9",
                    "LPT1", "LPT2", "LPT3", "LPT4", "LPT5", "LPT6", "LPT7", "LPT8", "LPT9"]

  function Stem(name: string): string {
    Split(name, '.')[0]
  }

  /** A name of one entry: never empty, never a step, never a separator. */
  predicate ValidName(name: string) {
    && 0 < |name| <= NAME_MAXIMUM
    && name != "." && name != ".."
    && name[0] != ' ' && name[|name| - 1] != ' ' && name[|name| - 1] != '.'
    && (forall c :: c in name ==> '\U{20}' <= c && c != '\U{7F}' && c !in FORBIDDEN)
    && Fold(Stem(name)) !in DEVICES
  }

  lemma NamesHoldNoSeparator(name: string)
    requires ValidName(name)
    ensures '/' !in name && SEPARATOR !in name && Unified(name) == name
  {
  }

  /** A single separator at the end of a directory is dropped. */
  function Trimmed(directory: string): string {
    if directory != "" && IsSeparator(directory[|directory| - 1]) then directory[..|directory| - 1] else directory
  }

  /** The names along a relative directory, when every one of them is valid. */
  function Resolve(directory: string): (r: Option<seq<string>>)
    ensures r.Some? ==> forall i :: 0 <= i < |r.value| ==> ValidName(r.value[i])
  {
    if directory == "" then Some([])
    else if IsSeparator(directory[0]) then None
    else
      var parts := Split(Unified(Trimmed(directory)), SEPARATOR);
      if forall i :: 0 <= i < |parts| ==> ValidName(parts[i]) then Some(parts) else None
  }
}

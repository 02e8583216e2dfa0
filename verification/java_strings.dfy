/** The few `java.lang.String` / commons-lang operations the provider
    repository relies on, with their Java edge cases written out. */
module JavaStrings {

  /** `s.replace(target, "")` for a non-empty literal target: occurrences are
      found left to right, never overlap, and the output is not rescanned. */
  function RemoveAll(s: string, target: string): (r: string)
    requires |target| > 0
    ensures |r| <= |s|
    ensures forall c :: c in r ==> c in s
    decreases |s|
  {
    if |s| < |target| then s
    else if s[..|target|] == target then RemoveAll(s[|target|..], target)
    else [s[0]] + RemoveAll(s[1..], target)
  }

  /** `target` starts at position `i` of `s`. */
  predicate OccursAt(s: string, target: string, i: nat)
  {
    i + |target| <= |s| && s[i..i + |target|] == target
  }

  /** Reference definition: every `c` dropped, everything else kept in order. */
  function DeleteChar(s: string, c: char): string
  {
    if s == [] then [] else (if s[0] == c then [] else [s[0]]) + DeleteChar(s[1..], c)
  }

  /** A replacement with nothing to replace returns the string as it was. */
  lemma {:induction false} RemoveAllAbsent(s: string, target: string)
    requires |target| > 0
    requires forall j :: !OccursAt(s, target, j)
    ensures RemoveAll(s, target) == s
    decreases |s|
  {
    if |s| >= |target| {
      assert s[..|target|] != target by {
        assert !OccursAt(s, target, 0);
        assert s[..|target|] == s[0..0 + |target|];
      }
      forall j: nat
        ensures !OccursAt(s[1..], target, j)
      {
        assert !OccursAt(s, target, j + 1);
        if j + |target| <= |s| - 1 {
          assert s[1..][j..j + |target|] == s[j + 1..j + 1 + |target|];
        }
      }
      RemoveAllAbsent(s[1..], target);
      assert [s[0]] + s[1..] == s;
    }
  }

  /** Removing a one-character target removes every occurrence of that
      character and keeps the rest in order. */
  lemma {:induction false} RemoveAllChar(s: string, c: char)
    ensures RemoveAll(s, [c]) == DeleteChar(s, c)
    ensures c !in RemoveAll(s, [c])
    decreases |s|
  {
    if s != [] {
      RemoveAllChar(s[1..], c);
      assert s[..1] == [s[0]];
      assert s[1..] == s[|[c]|..];
    }
  }

  lemma {:induction false} DeleteCharAppend(s: string, x: char, c: char)
    ensures DeleteChar(s + [x], c) == DeleteChar(s, c) + (if x == c then [] else [x])
    decreases |s|
  {
    if s != [] {
      assert (s + [x])[1..] == s[1..] + [x];
      DeleteCharAppend(s[1..], x, c);
    } else {
      assert [x][1..] == [];
    }
  }

  lemma {:induction false} DeleteCharAbsent(s: string, c: char)
    requires c !in s
    ensures DeleteChar(s, c) == s
    decreases |s|
  {
    if s != [] {
      DeleteCharAbsent(s[1..], c);
      assert [s[0]] + s[1..] == s;
    }
  }

  /** Reference description of one replacement step: when `prefix` holds no
      occurrence of `target` that starts inside it, the prefix is kept, the
      first occurrence is dropped, and the search resumes right after it, in
      the unchanged rest of the input. */
  lemma {:induction false} RemoveAllFirstOccurrence(prefix: string, target: string, rest: string)
    requires |target| > 0
    requires forall j :: 0 <= j < |prefix| ==> !OccursAt(prefix + target + rest, target, j)
    ensures RemoveAll(prefix + target + rest, target) == prefix + RemoveAll(rest, target)
    decreases |prefix|
  {
    if prefix == [] {
      RemoveAllFront(target, rest);
      assert prefix + target + rest == target + rest;
    } else {
      var c, p' := prefix[0], prefix[1..];
      var tail := p' + target + rest;
      assert prefix + target + rest == [c] + tail;
      NoOccurrenceShift(c, tail, target, |p'|);
      RemoveAllKeep(c, tail, target);
      RemoveAllFirstOccurrence(p', target, rest);
      assert [c] + (p' + RemoveAll(rest, target)) == prefix + RemoveAll(rest, target);
    }
  }

  /** An occurrence at the front is dropped. */
  lemma RemoveAllFront(target: string, rest: string)
    requires |target| > 0
    ensures RemoveAll(target + rest, target) == RemoveAll(rest, target)
  {
    assert (target + rest)[..|target|] == target;
    assert (target + rest)[|target|..] == rest;
  }

  /** Without an occurrence at the front, the first character is kept. */
  lemma RemoveAllKeep(c: char, s: string, target: string)
    requires |target| > 0 && !OccursAt([c] + s, target, 0)
    ensures RemoveAll([c] + s, target) == [c] + RemoveAll(s, target)
  {
    var t := [c] + s;
    assert t[1..] == s;
    if |t| >= |target| {
      assert t[..|target|] == t[0..0 + |target|];
    }
  }

  /** No occurrence in the first `n + 1` positions of `[c] + s` means none
      in the first `n` positions of `s`. */
  lemma NoOccurrenceShift(c: char, s: string, target: string, n: nat)
    requires n <= |s|
    requires forall j :: 0 <= j < n + 1 ==> !OccursAt([c] + s, target, j)
    ensures forall j :: 0 <= j < n ==> !OccursAt(s, target, j)
  {
    forall j | 0 <= j < n
      ensures !OccursAt(s, target, j)
    {
      assert !OccursAt([c] + s, target, j + 1);
      if j + |target| <= |s| {
        assert ([c] + s)[j + 1..j + 1 + |target|] == s[j..j + |target|];
      }
    }
  }

  /** Because the output is not rescanned, a replacement can leave behind an
      occurrence that it assembled from the pieces around a removed one. */
  lemma RemoveAllDoesNotRescan()
    ensures RemoveAll("hthttp://tp://", "http://") == "http://"
  {
    var t := "http://";
    var s0, s1, s2, s3 := "hthttp://tp://", "thttp://tp://", "http://tp://", "tp://";
    assert s0[1..] == s1 && s1[1..] == s2 && s2[|t|..] == s3;
    assert s2[..|t|] == t;
    assert s1[..|t|][1] != t[1];
    assert s0[..|t|][2] != t[2];
    calc {
      RemoveAll(s0, t);
      [s0[0]] + RemoveAll(s1, t);
      [s0[0]] + ([s1[0]] + RemoveAll(s2, t));
      [s0[0]] + ([s1[0]] + RemoveAll(s3, t));
      "http://";
    }
  }

  /** `Character.isWhitespace`: the Unicode space, line and paragraph
      separators except the three non-breaking spaces, plus the ASCII controls
      TAB, LF, VT, FF, CR and U+001C..U+001F. */
  predicate IsWhitespace(c: char)
  {
    var n := c as int;
    (9 <= n <= 13) || (28 <= n <= 32) || n == 0x1680
    || (0x2000 <= n <= 0x2006) || (0x2008 <= n <= 0x200A)
    || n == 0x2028 || n == 0x2029 || n == 0x205F || n == 0x3000
  }

  /** `StringUtils.deleteWhitespace` on a non-null string. */
  function DeleteWhitespace(s: string): (r: string)
    ensures |r| <= |s|
    ensures forall c :: c in r <==> c in s && !IsWhitespace(c)
    ensures forall c :: multiset(r)[c] == if IsWhitespace(c) then 0 else multiset(s)[c]
  {
    if s == [] then []
    else
      assert s == [s[0]] + s[1..];
      (if IsWhitespace(s[0]) then [] else [s[0]]) + DeleteWhitespace(s[1..])
  }

  /** `n` commas. */
  function Commas(n: nat): (r: string)
    ensures |r| == n
    ensures forall k :: 0 <= k < n ==> r[k] == ','
  {
    if n == 0 then [] else Commas(n - 1) + [',']
  }

  /** `full` is `part` followed by nothing but commas. */
  predicate CommaPadded(full: string, part: string)
  {
    |part| <= |full| && full == part + Commas(|full| - |part|)
  }

  /** `String.join(",", pieces)`. */
  function Join(pieces: seq<string>): string
  {
    if |pieces| == 0 then ""
    else if |pieces| == 1 then pieces[0]
    else pieces[0] + "," + Join(pieces[1..])
  }

  /** Every piece between commas, empty ones included (`split(",", -1)`). */
  function SplitAll(s: string): (r: seq<string>)
    ensures |r| >= 1
    ensures forall k :: 0 <= k < |r| ==> ',' !in r[k]
  {
    if s == [] then [""]
    else if s[0] == ',' then [""] + SplitAll(s[1..])
    else
      var t := SplitAll(s[1..]);
      [[s[0]] + t[0]] + t[1..]
  }

  /** The pieces up to the last non-empty one. */
  function DropTrailingEmpty(pieces: seq<string>): (r: seq<string>)
    ensures |r| <= |pieces| && r == pieces[..|r|]
    ensures |r| == 0 || r[|r| - 1] != ""
    ensures forall k :: |r| <= k < |pieces| ==> pieces[k] == ""
  {
    if |pieces| > 0 && pieces[|pieces| - 1] == "" then DropTrailingEmpty(pieces[..|pieces| - 1])
    else pieces
  }

  /** `s.split(",")`: a string without any comma comes back whole (so `""`
      gives `[""]`); otherwise the pieces with trailing empty ones dropped (so
      `","` gives `[]`, while a leading empty piece is kept). */
  function Split(s: string): (r: seq<string>)
    ensures forall k :: 0 <= k < |r| ==> ',' !in r[k]
    ensures s == "" ==> r == [""]
    ensures s != "" ==> |r| == 0 || r[|r| - 1] != ""
  {
    if s == [] then [""] else DropTrailingEmpty(SplitAll(s))
  }

  lemma {:induction false} JoinCons(c: char, t: seq<string>)
    requires |t| >= 1
    ensures Join([[c] + t[0]] + t[1..]) == [c] + Join(t)
  {
    var u := [[c] + t[0]] + t[1..];
    if |t| > 1 {
      assert u[1..] == t[1..];
    }
  }

  /** Joining the pieces with commas gives back the original string. */
  lemma {:induction false} SplitAllJoin(s: string)
    ensures Join(SplitAll(s)) == s
    decreases |s|
  {
    if s != [] {
      SplitAllJoin(s[1..]);
      if s[0] == ',' {
        var t := SplitAll(s[1..]);
        assert ([""] + t)[1..] == t;
        assert s == [','] + s[1..];
      } else {
        JoinCons(s[0], SplitAll(s[1..]));
        assert s == [s[0]] + s[1..];
      }
    }
  }

  lemma {:induction false} JoinSnocEmpty(pieces: seq<string>)
    requires |pieces| >= 1
    ensures Join(pieces + [""]) == Join(pieces) + ","
    decreases |pieces|
  {
    if |pieces| == 1 {
      assert (pieces + [""])[1..] == [""];
    } else {
      assert (pieces + [""])[1..] == pieces[1..] + [""];
      JoinSnocEmpty(pieces[1..]);
    }
  }

  /** Dropping the trailing empty pieces only drops trailing commas. */
  lemma {:induction false} DropTrailingEmptyJoin(pieces: seq<string>)
    ensures CommaPadded(Join(pieces), Join(DropTrailingEmpty(pieces)))
    decreases |pieces|
  {
    if |pieces| > 0 && pieces[|pieces| - 1] == "" {
      var init := pieces[..|pieces| - 1];
      assert DropTrailingEmpty(pieces) == DropTrailingEmpty(init);
      DropTrailingEmptyJoin(init);
      if |init| == 0 {
        assert pieces == [""];
      } else {
        assert pieces == init + [""];
        AppendEmptyPiece(init, DropTrailingEmpty(init));
      }
    } else {
      assert Commas(0) == [];
    }
  }

  lemma AppendEmptyPiece(init: seq<string>, r: seq<string>)
    requires |init| >= 1
    requires CommaPadded(Join(init), Join(r))
    ensures CommaPadded(Join(init + [""]), Join(r))
  {
    JoinSnocEmpty(init);
    var m := |Join(init)| - |Join(r)|;
    assert Commas(m + 1) == Commas(m) + [','];
  }

  /** `split(",")` loses nothing but trailing commas: the pieces joined with
      commas, followed by the dropped commas, are the original string. */
  lemma SplitRoundTrip(s: string)
    ensures CommaPadded(s, Join(Split(s)))
  {
    if s != [] {
      SplitAllJoin(s);
      DropTrailingEmptyJoin(SplitAll(s));
    }
  }
}

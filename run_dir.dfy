/** `increment_path`: choosing a fresh run directory name.

    The file system is given as inputs: whether the path exists, and the
    names `glob(f"{path}*")` returned.  Paths are plain strings, assumed
    already in the normal form `str(Path(path))` gives them. */
module RunDir {
  import opened Wrappers
  import opened Decimal

  /** Index of the last occurrence of c in s, or -1 (`str.rfind`). */
  function RFind(s: string, c: char): (i: int)
    ensures -1 <= i < |s|
    ensures i >= 0 ==> s[i] == c
    ensures forall j :: i < j < |s| ==> s[j] != c
  {
    if s == [] then -1
    else if s[|s| - 1] == c then |s| - 1
    else RFind(s[..|s| - 1], c)
  }

  /** The last occurrence is the one `str.rfind` reports. */
  lemma {:induction false} RFindIsLast(s: string, c: char, i: nat)
    requires i < |s| && s[i] == c
    requires forall j :: i < j < |s| ==> s[j] != c
    ensures RFind(s, c) == i
  {
    if i < |s| - 1 {
      assert s[|s| - 1] != c;
      RFindIsLast(s[..|s| - 1], c, i);
    }
  }

  /** `Path(path).name`: the last path component, the part after the last
      '/' (the whole path when it holds none). */
  function Name(path: string): (n: string)
    ensures |n| <= |path| && n == path[|path| - |n|..]
    ensures '/' !in n
    ensures |n| == |path| || path[|path| - |n| - 1] == '/'
  {
    path[RFind(path, '/') + 1..]
  }

  /** `Path(path).stem`: the name without its final suffix; a leading dot
      or a trailing dot does not start a suffix. */
  function Stem(path: string): (s: string)
    ensures |s| <= |Name(path)| && s == Name(path)[..|s|]
    ensures s != Name(path) ==>
      0 < |s| < |Name(path)| - 1 && Name(path)[|s|] == '.' &&
      forall j :: |s| < j < |Name(path)| ==> Name(path)[j] != '.'
    ensures (forall j :: 0 < j < |Name(path)| - 1 ==> Name(path)[j] != '.') ==> s == Name(path)
  {
    var name := Name(path);
    var i := RFind(name, '.');
    if 0 < i < |name| - 1 then name[..i] else name
  }

  /** A name whose last '.' is an inner one (neither its first nor its
      last character) has as stem the part before that '.'. */
  lemma StemCutsAtLastInnerDot(path: string, i: nat)
    requires 0 < i < |Name(path)| - 1 && Name(path)[i] == '.'
    requires forall j :: i < j < |Name(path)| ==> Name(path)[j] != '.'
    ensures Stem(path) == Name(path)[..i]
  {
    RFindIsLast(Name(path), '.', i);
  }

  /** Does `stem(\d+)` match in d at position p? */
  predicate MatchesAt(d: string, stem: string, p: nat) {
    p + |stem| < |d| && d[p..p + |stem|] == stem && IsDigit(d[p + |stem|])
  }

  /** `re.search(stem(\d+), d)` scanning from position p: the leftmost
      match wins, and its group is the greedy run of digits after stem. */
  function SearchFrom(d: string, stem: string, p: nat): (m: Option<nat>)
    requires p <= |d|
    ensures m.None? <==> forall q :: p <= q <= |d| ==> !MatchesAt(d, stem, q)
    decreases |d| - p
  {
    if p + |stem| >= |d| then None
    else if MatchesAt(d, stem, p) then Some(RunValue(d, p + |stem|))
    else SearchFrom(d, stem, p + 1)
  }

  /** The integer group of `re.search(rf"%s(\d+)" % stem, d)`, if any. */
  function Search(d: string, stem: string): (m: Option<nat>)
    ensures m.None? <==> forall q :: 0 <= q <= |d| ==> !MatchesAt(d, stem, q)
  {
    SearchFrom(d, stem, 0)
  }

  /** A match is the leftmost position q at or after p where the stem is
      followed by a digit, and its value is the greedy digit run there. */
  lemma {:induction false} SearchFromLeftmost(d: string, stem: string, p: nat)
    requires p <= |d|
    ensures var m := SearchFrom(d, stem, p);
      m.Some? ==>
        exists q ::
          && p <= q <= |d| && MatchesAt(d, stem, q)
          && (forall q' :: p <= q' < q ==> !MatchesAt(d, stem, q'))
          && m.value == RunValue(d, q + |stem|)
    decreases |d| - p
  {
    var m := SearchFrom(d, stem, p);
    if m.Some? {
      if MatchesAt(d, stem, p) {
        assert m.value == RunValue(d, p + |stem|);
      } else {
        SearchFromLeftmost(d, stem, p + 1);
        assert m == SearchFrom(d, stem, p + 1);
        var q :| p + 1 <= q <= |d| && MatchesAt(d, stem, q)
          && (forall q' :: p + 1 <= q' < q ==> !MatchesAt(d, stem, q'))
          && m.value == RunValue(d, q + |stem|);
        assert forall q' :: p <= q' < q ==> !MatchesAt(d, stem, q');
      }
    }
  }

  /** `[int(m.groups()[0]) for m in matches if m]`, in the order of dirs. */
  function Suffixes(dirs: seq<string>, stem: string): (xs: seq<nat>)
    ensures forall k :: 0 <= k < |dirs| && Search(dirs[k], stem).Some? ==>
              Search(dirs[k], stem).value in xs
    ensures forall x :: x in xs ==>
              exists k :: 0 <= k < |dirs| && Search(dirs[k], stem) == Some(x)
  {
    if dirs == [] then []
    else
      var rest := Suffixes(dirs[1..], stem);
      assert forall k :: 1 <= k < |dirs| ==> dirs[k] == dirs[1..][k - 1];
      match Search(dirs[0], stem)
      case Some(x) => [x] + rest
      case None => rest
  }

  /** `max(i)` of a non-empty list. */
  function MaxOf(xs: seq<nat>): (m: nat)
    requires |xs| > 0
    ensures m in xs
    ensures forall x :: x in xs ==> x <= m
  {
    if |xs| == 1 then xs[0]
    else
      var rest := MaxOf(xs[1..]);
      assert forall x :: x in xs ==> x == xs[0] || x in xs[1..];
      if xs[0] >= rest then xs[0] else rest
  }

  /** The run number `increment_path` appends: one more than the largest
      suffix found, or 2 when no name has one. */
  function NextIndex(suffixes: seq<nat>): (n: nat)
    ensures suffixes == [] ==> n == 2
    ensures suffixes != [] ==> n - 1 in suffixes
    ensures forall x :: x in suffixes ==> x < n
  {
    if |suffixes| > 0 then MaxOf(suffixes) + 1 else 2
  }

  /** `increment_path(path, exist_ok)` as written. */
  function IncrementPath(path: string, pathExists: bool, existOk: bool, dirs: seq<string>): (r: string)
    ensures !pathExists || existOk ==> r == path
    ensures pathExists && !existOk ==>
      |r| > |path| && r[..|path|] == path && AllDigits(r[|path|..])
  {
    if (pathExists && existOk) || !pathExists then path
    else path + Show(NextIndex(Suffixes(dirs, Stem(path))))
  }

  /** The path comes back unchanged exactly when it does not exist or
      `exist_ok` is set. */
  lemma UnchangedIff(path: string, pathExists: bool, existOk: bool, dirs: seq<string>)
    ensures IncrementPath(path, pathExists, existOk, dirs) == path <==> !pathExists || existOk
  {
    if pathExists && !existOk {
      var r := IncrementPath(path, pathExists, existOk, dirs);
      assert |r| > |path|;
    }
  }

  /** Otherwise the result is path followed by a number strictly larger
      than every suffix the search found among the listed names. */
  lemma IncrementedExceedsSuffixes(path: string, existOk: bool, dirs: seq<string>)
    requires !existOk
    ensures exists n: nat ::
      IncrementPath(path, true, existOk, dirs) == path + Show(n) &&
      forall k :: 0 <= k < |dirs| && Search(dirs[k], Stem(path)).Some? ==>
        Search(dirs[k], Stem(path)).value < n
  {
    var n := NextIndex(Suffixes(dirs, Stem(path)));
    assert IncrementPath(path, true, existOk, dirs) == path + Show(n);
  }

  /** Searching `path + digits` when path ends with its stem and path
      alone holds no match: the search lands on the appended digits. */
  lemma {:induction false} SearchAppended(path: string, stem: string, n: nat, p: nat)
    requires |stem| <= |path| && path[|path| - |stem|..] == stem
    requires SearchFrom(path, stem, 0).None?
    requires p <= |path| - |stem|
    ensures SearchFrom(path + Show(n), stem, p) == Some(n)
    decreases |path| - |stem| - p
  {
    var d := path + Show(n);
    if p < |path| - |stem| {
      assert !MatchesAt(path, stem, p);
      assert d[p..p + |stem|] == path[p..p + |stem|];
      assert d[p + |stem|] == path[p + |stem|];
      assert !MatchesAt(d, stem, p);
      SearchAppended(path, stem, n, p + 1);
    } else {
      assert d[p..p + |stem|] == stem;
      assert d[|path|] == Show(n)[0];
      assert MatchesAt(d, stem, p);
      RunValueOfShow(path, n);
    }
  }

  /** When the path ends with its stem (it has no extension) and the stem
      is not followed by a digit anywhere in the path itself, the name
      returned is none of the listed names. */
  lemma FreshWhenStemOnlyAtEnd(path: string, dirs: seq<string>)
    requires |Stem(path)| <= |path| && path[|path| - |Stem(path)|..] == Stem(path)
    requires Search(path, Stem(path)).None?
    ensures IncrementPath(path, true, false, dirs) !in dirs
  {
    FreshAfterStem(path, Stem(path), dirs);
  }

  lemma FreshAfterStem(path: string, stem: string, dirs: seq<string>)
    requires |stem| <= |path| && path[|path| - |stem|..] == stem
    requires Search(path, stem).None?
    ensures path + Show(NextIndex(Suffixes(dirs, stem))) !in dirs
  {
    var n := NextIndex(Suffixes(dirs, stem));
    SearchAppended(path, stem, n, 0);
    NotAmongListed(dirs, stem, path + Show(n));
  }

  /** A name whose suffix is the next index is not among the listed names. */
  lemma NotAmongListed(dirs: seq<string>, stem: string, r: string)
    requires Search(r, stem) == Some(NextIndex(Suffixes(dirs, stem)))
    ensures r !in dirs
  {
  }

  /** As written the name can collide: the search is not anchored to the
      end of the path, so for "exp1/exp" it reads the "1" of the parent
      directory in every listed name, and the "new" name is one that
      already exists. */
  lemma CollisionAsWritten()
    ensures IncrementPath("exp1/exp", true, false, ["exp1/exp", "exp1/exp2"]) == "exp1/exp2"
  {
    StemOfExample();
    SuffixesOfExample();
    assert NextIndex([1, 1]) == 2 by {
      assert MaxOf([1, 1]) == 1 by { assert [1, 1][1..] == [1]; }
    }
    assert Show(2) == "2";
  }

  lemma SuffixesOfExample()
    ensures Suffixes(["exp1/exp", "exp1/exp2"], "exp") == [1, 1]
  {
    var dirs := ["exp1/exp", "exp1/exp2"];
    SearchOfExample(dirs[0]);
    SearchOfExample(dirs[1]);
    assert dirs[1..] == ["exp1/exp2"];
    assert dirs[1..][1..] == [];
    assert Suffixes(dirs[1..], "exp") == [1];
  }

  lemma StemOfExample()
    ensures Stem("exp1/exp") == "exp"
  {
    var path := "exp1/exp";
    assert RFind(path[..7], '/') == 4 by {
      assert path[..7][..6][..5][6 - 2] == '/';
    }
    assert RFind(path, '/') == 4;
    assert Name(path) == "exp";
    assert RFind("exp", '.') == -1 by {
      assert "exp"[..2][..1][..0] == [];
    }
  }

  lemma SearchOfExample(d: string)
    requires d == "exp1/exp" || d == "exp1/exp2"
    ensures Search(d, "exp") == Some(1)
  {
    assert MatchesAt(d, "exp", 0);
    assert RunLength(d, 3) == 1 by {
      assert !IsDigit(d[4]);
      assert RunLength(d, 4) == 0;
    }
    assert d[3..4] == "1";
    assert Value("1") == 1 by {
      assert "1"[..0] == [];
    }
  }

  /** The evidently intended suffix: the digits directly after the whole
      path, `re.match(re.escape(str(path)) + r"(\d+)", d)`. */
  function AnchoredSuffix(d: string, path: string): (m: Option<nat>)
    ensures m.Some? <==> |path| < |d| && d[..|path|] == path && IsDigit(d[|path|])
  {
    if |path| < |d| && d[..|path|] == path && IsDigit(d[|path|])
    then Some(RunValue(d, |path|)) else None
  }

  function AnchoredSuffixes(dirs: seq<string>, path: string): (xs: seq<nat>)
    ensures forall k :: 0 <= k < |dirs| && AnchoredSuffix(dirs[k], path).Some? ==>
              AnchoredSuffix(dirs[k], path).value in xs
    ensures forall x :: x in xs ==>
              exists k :: 0 <= k < |dirs| && AnchoredSuffix(dirs[k], path) == Some(x)
  {
    if dirs == [] then []
    else
      var rest := AnchoredSuffixes(dirs[1..], path);
      assert forall k :: 1 <= k < |dirs| ==> dirs[k] == dirs[1..][k - 1];
      match AnchoredSuffix(dirs[0], path)
      case Some(x) => [x] + rest
      case None => rest
  }

  /** A name made of the path, the digits of n and a tail that does not
      start with a digit has anchored suffix n. */
  lemma AnchoredSuffixOfShow(path: string, n: nat, t: string)
    requires t == [] || !IsDigit(t[0])
    ensures AnchoredSuffix(path + Show(n) + t, path) == Some(n)
  {
    var d := path + Show(n) + t;
    assert d == (path + Show(n)) + t;
    assert d[..|path|] == path;
    assert d[|path|] == Show(n)[0];
    assert d[..|path| + |Show(n)|] == path + Show(n);
    assert (path + Show(n))[|path|..] == Show(n);
    RunLengthUpTo(path + Show(n), t, |path|);
    assert d[|path|..|path| + |Show(n)|] == Show(n);
    ValueOfShow(n);
  }

  /** `increment_path` with the suffix read right after the path. */
  function IncrementPathAnchored(path: string, pathExists: bool, existOk: bool, dirs: seq<string>): (r: string)
    ensures !pathExists || existOk ==> r == path
    ensures pathExists && !existOk ==>
      |r| > |path| && r[..|path|] == path && AllDigits(r[|path|..])
  {
    if (pathExists && existOk) || !pathExists then path
    else path + Show(NextIndex(AnchoredSuffixes(dirs, path)))
  }

  /** The corrected version returns the path unchanged under the same
      condition, and otherwise a name that is none of the listed ones. */
  lemma AnchoredIsFresh(path: string, pathExists: bool, existOk: bool, dirs: seq<string>)
    ensures IncrementPathAnchored(path, pathExists, existOk, dirs) == path <==> !pathExists || existOk
    ensures pathExists && !existOk ==> IncrementPathAnchored(path, pathExists, existOk, dirs) !in dirs
  {
    if pathExists && !existOk {
      var n := NextIndex(AnchoredSuffixes(dirs, path));
      var r := path + Show(n);
      assert |r| > |path|;
      assert r[..|path|] == path && r[|path|] == Show(n)[0];
      RunValueOfShow(path, n);
      assert AnchoredSuffix(r, path) == Some(n);
    }
  }
}

/** Paths as the lock server reads them: filtering, and the levels it locks from the root down. */
module LockPaths {

  datatype Filtered = Path(path: string) | NotAPath

  function FilterPath(raw: string): Filtered {
    if |raw| == 0 || raw[0] != '/' then NotAPath
    else if raw[|raw| - 1] == '/' then Path(raw[..|raw| - 1])
    else Path(raw)
  }

  // Where the first slash is, or the length.
  function FirstSlash(s: string): (k: nat)
    ensures k <= |s| && (forall j :: 0 <= j < k ==> s[j] != '/') && (k < |s| ==> s[k] == '/')
  {
    if s == "" || s[0] == '/' then 0 else 1 + FirstSlash(s[1..])
  }

  // The parts between slashes; one empty part for the empty string.
  function Split(s: string): (parts: seq<string>)
    ensures |parts| > 0 && parts[0] == s[..FirstSlash(s)]
    decreases |s|
  {
    var k := FirstSlash(s);
    if k == |s| then [s] else [s[..k]] + Split(s[k + 1..])
  }

  // One more part on accPath.
  function Longer(acc: string, part: string): string {
    if |acc| == 1 then acc + part else acc + "/" + part
  }

  // The values accPath takes as the loop runs.
  function Levels(acc: string, parts: seq<string>): (levels: seq<string>)
    ensures |levels| == |parts|
    decreases |parts|
  {
    if parts == [] then [] else [Longer(acc, parts[0])] + Levels(Longer(acc, parts[0]), parts[1..])
  }

  function Prefixes(path: string): seq<string> {
    Levels("", Split(path))
  }

  // With acc reached after k parts, the levels from k on are still to come.
  ghost predicate LevelsFrom(levels: seq<string>, acc: string, parts: seq<string>, k: nat) {
    k <= |parts| == |levels| && levels[k..] == Levels(acc, parts[k..])
  }

  lemma NextLevel(levels: seq<string>, acc: string, parts: seq<string>, k: nat)
    requires LevelsFrom(levels, acc, parts, k) && k < |parts|
    ensures levels[k] == Longer(acc, parts[k]) && LevelsFrom(levels, Longer(acc, parts[k]), parts, k + 1)
  {
    var rest := Levels(acc, parts[k..]);
    assert rest[0] == levels[k] && rest[1..] == levels[k + 1..];
    assert parts[k..][1..] == parts[k + 1..];
  }

  // ---- Which levels a path has ----------------------------------------------------------------

  // A path below the root whose first part is not empty.
  predicate Named(path: string) {
    |path| >= 2 && path[0] == '/' && path[1] != '/'
  }

  predicate Rooted(level: string) {
    |level| >= 1 && level[0] == '/' && (|level| >= 2 ==> level[1] != '/')
  }

  lemma {:induction false} SplitPartsHaveNoSlash(s: string, k: nat)
    requires k < |Split(s)|
    ensures '/' !in Split(s)[k]
    decreases |s|
  {
    var j := FirstSlash(s);
    if k > 0 && j < |s| {
      SplitPartsHaveNoSlash(s[j + 1..], k - 1);
    }
  }

  // Levels never get shorter; only the root can come twice; and none but the root starts with two slashes.
  lemma {:induction false} LevelsRise(acc: string, parts: seq<string>, a: nat)
    requires Rooted(acc) && (forall k :: 0 <= k < |parts| ==> '/' !in parts[k]) && a < |parts|
    ensures Rooted(Levels(acc, parts)[a])
    ensures |acc| < |Levels(acc, parts)[a]| || Levels(acc, parts)[a] == acc == "/"
    ensures forall b :: a < b < |parts| ==>
      |Levels(acc, parts)[a]| < |Levels(acc, parts)[b]| || Levels(acc, parts)[a] == Levels(acc, parts)[b] == "/"
    decreases |parts|
  {
    var next := Longer(acc, parts[0]);
    assert '/' !in parts[0];
    assert |parts[0]| > 0 ==> parts[0][0] in parts[0];
    assert Rooted(next) && (|acc| < |next| || next == acc == "/");
    if a > 0 {
      LevelsRise(next, parts[1..], a - 1);
    }
    forall b | a < b < |parts|
      ensures |Levels(acc, parts)[a]| < |Levels(acc, parts)[b]| || Levels(acc, parts)[a] == Levels(acc, parts)[b] == "/"
    {
      if a == 0 {
        LevelsRise(next, parts[1..], b - 1);
      } else {
        assert Levels(acc, parts)[b] == Levels(next, parts[1..])[b - 1];
      }
    }
  }

  // What filterPath lets through.
  predicate Accepted(path: string) {
    path == "" || path[0] == '/'
  }

  lemma FilteredIsAccepted(raw: string)
    ensures FilterPath(raw).Path? <==> raw != "" && raw[0] == '/'
    ensures FilterPath(raw).Path? ==> Accepted(FilterPath(raw).path)
    ensures FilterPath(raw) == Path("/") <==> raw == "//"
    ensures FilterPath(raw) == Path("") <==> raw == "/"
  {
  }

  lemma PrefixesShape(path: string)
    requires Accepted(path)
    ensures |Prefixes(path)| > 0 && Prefixes(path)[0] == "/"
    ensures path != "" ==> Prefixes(path) == ["/"] + Levels("/", Split(path[1..]))
    ensures path == "" ==> Prefixes(path) == ["/"]
  {
  }

  // Along the levels of any path, lengths strictly increase, but for the root, which "//..." repeats.
  lemma PrefixesRise(path: string, a: nat, b: nat)
    requires Accepted(path) && a < b < |Prefixes(path)|
    ensures |Prefixes(path)[a]| < |Prefixes(path)[b]| || Prefixes(path)[a] == Prefixes(path)[b] == "/"
  {
    PrefixesShape(path);
    var parts := Split(path[1..]);
    forall k: nat | k < |parts| ensures '/' !in parts[k] {
      SplitPartsHaveNoSlash(path[1..], k);
    }
    if a > 0 {
      LevelsRise("/", parts, a - 1);
    } else {
      LevelsRise("/", parts, b - 1);
    }
  }

  lemma PrefixesRooted(path: string, a: nat)
    requires Accepted(path) && a < |Prefixes(path)|
    ensures Rooted(Prefixes(path)[a])
  {
    PrefixesShape(path);
    if a > 0 {
      var parts := Split(path[1..]);
      forall k: nat | k < |parts| ensures '/' !in parts[k] {
        SplitPartsHaveNoSlash(path[1..], k);
      }
      LevelsRise("/", parts, a - 1);
    }
  }

  // s is whole cut just before one of its slashes, or whole itself, and longer than lo.
  ghost predicate CutOf(whole: string, lo: nat, s: string) {
    lo < |s| <= |whole| && s == whole[..|s|] && (|s| == |whole| || whole[|s|] == '/')
  }

  lemma LevelsOpen(acc: string, rest: string)
    ensures var k := FirstSlash(rest);
      var next := Longer(acc, rest[..k]);
      Levels(acc, Split(rest)) == [next] + if k < |rest| then Levels(next, Split(rest[k + 1..])) else []
  {
  }

  // The shortest cut past acc ends at the next slash.
  lemma FirstCut(acc: string, rest: string, s: string)
    ensures var k := FirstSlash(rest);
      var whole, next := acc + "/" + rest, acc + "/" + rest[..k];
      && (CutOf(whole, |acc|, s) <==> s == next || (k < |rest| && CutOf(whole, |next|, s)))
      && (k < |rest| ==> whole == next + "/" + rest[k + 1..])
  {
    var k := FirstSlash(rest);
    var whole, next := acc + "/" + rest, acc + "/" + rest[..k];
    assert whole[..|next|] == next;
    assert |acc| < |s| < |next| ==> whole[|s|] == rest[|s| - |acc| - 1];
  }

  lemma {:induction false} LevelsAreCuts(acc: string, rest: string, s: string)
    requires |acc| >= 2
    ensures s in Levels(acc, Split(rest)) <==> CutOf(acc + "/" + rest, |acc|, s)
    decreases |rest|
  {
    var k := FirstSlash(rest);
    FirstCut(acc, rest, s);
    LevelsOpen(acc, rest);
    var next := acc + "/" + rest[..k];
    assert Longer(acc, rest[..k]) == next;
    if k < |rest| {
      LevelsAreCuts(next, rest[k + 1..], s);
      assert s in Levels(acc, Split(rest)) <==> s == next || s in Levels(next, Split(rest[k + 1..]));
    } else {
      assert Levels(acc, Split(rest)) == [next];
    }
  }

  // The levels of a named path are the root and every cut of the path before a slash, itself included.
  lemma PrefixesAreCuts(path: string, s: string)
    requires Named(path)
    ensures s in Prefixes(path) <==> s == "/" || CutOf(path, 1, s)
  {
    PrefixesShape(path);
    var rest := path[1..];
    var k := FirstSlash(rest);
    assert path == "" + "/" + rest && k >= 1;
    LevelsOpen("/", rest);
    FirstCut("", rest, s);
    assert CutOf(path, 0, s) <==> CutOf(path, 1, s);
    var next := "/" + rest[..k];
    assert "" + "/" + rest[..k] == next;
    if k < |rest| {
      LevelsAreCuts(next, rest[k + 1..], s);
      assert s in Levels("/", Split(rest)) <==> s == next || s in Levels(next, Split(rest[k + 1..]));
    } else {
      assert Levels("/", Split(rest)) == [next];
    }
  }

  // Any other path but the root's begins with two slashes: its levels are those of the path without
  // the first of them, the root once more.
  lemma PrefixesOfSlashes(path: string)
    requires |path| >= 1 && path[0] == '/' && !Named(path)
    ensures path == "/" ==> Prefixes(path) == ["/", "/"]
    ensures path != "/" ==> path[1] == '/' && Prefixes(path) == ["/"] + Prefixes(path[1..])
  {
    PrefixesShape(path);
    var rest, acc := path[1..], "/";
    var k := FirstSlash(rest);
    assert k == 0 && rest[..k] == "";
    assert Longer(acc, rest[..k]) == acc;
    LevelsOpen(acc, rest);
    if path != "/" {
      PrefixesShape(rest);
      assert rest[k + 1..] == rest[1..];
    }
  }

  // q is p or lies below it.
  predicate Below(p: string, q: string) {
    q == p || (|p| < |q| && q[..|p|] == p && q[|p|] == '/')
  }

  // One named path is among the levels of another exactly when the other is it or lies below it.
  lemma LevelsOfDescendants(p: string, q: string)
    requires Named(p) && Named(q)
    ensures p in Prefixes(q) <==> Below(p, q)
  {
    PrefixesAreCuts(q, p);
  }

  // The path itself is one of its levels only if it is named or is "/", which only "//" filters to:
  // any other path is locked in shared mode all the way down, whatever was asked.
  lemma OwnLevel(path: string)
    requires Accepted(path)
    ensures path in Prefixes(path) <==> Named(path) || path == "/"
  {
    if Named(path) {
      PrefixesAreCuts(path, path);
    }
    if path in Prefixes(path) {
      var k :| 0 <= k < |Prefixes(path)| && Prefixes(path)[k] == path;
      PrefixesRooted(path, k);
    }
    if path == "/" {
      PrefixesShape(path);
    }
  }
}

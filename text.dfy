/** The PHP string functions the deployment task relies on: strpos,
    str_replace (deleting a needle), trim, file(), implode and dirname. */
module Text {
  import opened Wrappers

  /** Concatenation regroups freely; stated once for any element type so
      that callers need not compare their elements. */
  lemma AppendAssoc<T>(a: seq<T>, b: seq<T>, c: seq<T>)
    ensures a + (b + c) == a + b + c
  {
  }

  /** `pat` occurs in `s` starting at index `i`. */
  predicate OccursAt(s: string, pat: string, i: nat) {
    i + |pat| <= |s| && s[i..i + |pat|] == pat
  }

  ghost predicate Contains(s: string, pat: string) {
    exists i: nat :: OccursAt(s, pat, i)
  }

  /** The first occurrence of `pat` in `s` at or after `from`. */
  function FindFrom(s: string, pat: string, from: nat): (r: Option<nat>)
    requires from <= |s|
    ensures r.Some? ==> from <= r.value && OccursAt(s, pat, r.value)
    ensures r.Some? ==> forall k: nat :: from <= k < r.value ==> !OccursAt(s, pat, k)
    ensures r.None? ==> forall k: nat :: from <= k ==> !OccursAt(s, pat, k)
    decreases |s| - from
  {
    if OccursAt(s, pat, from) then Some(from)
    else if from + |pat| >= |s| then None
    else FindFrom(s, pat, from + 1)
  }

  /** PHP's strpos: the index of the first occurrence of `pat` in `s`. */
  function Find(s: string, pat: string): (r: Option<nat>)
    ensures r.Some? ==> OccursAt(s, pat, r.value)
    ensures r.Some? ==> forall k: nat :: k < r.value ==> !OccursAt(s, pat, k)
    ensures r.None? <==> !Contains(s, pat)
  {
    FindFrom(s, pat, 0)
  }

  /** PHP's implode: the parts with `sep` between consecutive ones. */
  function Join(parts: seq<string>, sep: string): string
  {
    if parts == [] then []
    else if |parts| == 1 then parts[0]
    else parts[0] + sep + Join(parts[1..], sep)
  }

  lemma JoinPrepend(x: string, parts: seq<string>, sep: string)
    requires parts != []
    ensures Join([x + parts[0]] + parts[1..], sep) == x + Join(parts, sep)
  {
    var ps := [x + parts[0]] + parts[1..];
    assert ps[1..] == parts[1..];
  }

  /** PHP's str_replace(pat, '', s): one left-to-right pass that deletes the
      non-overlapping occurrences of `pat`. */
  function DeleteAll(s: string, pat: string): (r: string)
    requires pat != []
    ensures |r| <= |s|
    decreases |s|
  {
    if |s| < |pat| then s
    else if s[..|pat|] == pat then DeleteAll(s[|pat|..], pat)
    else [s[0]] + DeleteAll(s[1..], pat)
  }

  /** DeleteAll keeps a first character that does not begin an occurrence. */
  lemma DeleteAllKeepsFirst(s: string, pat: string)
    requires pat != [] && s != []
    requires |s| >= |pat| ==> s[..|pat|] != pat
    ensures DeleteAll(s, pat) == [s[0]] + DeleteAll(s[1..], pat)
  {
  }

  /** DeleteAll keeps the first `n` characters when no occurrence begins
      among them. */
  lemma {:induction false} DeleteAllKeepsPrefix(s: string, n: nat, pat: string)
    requires pat != [] && n <= |s|
    requires forall k: nat :: k < n ==> !OccursAt(s, pat, k)
    ensures DeleteAll(s, pat) == s[..n] + DeleteAll(s[n..], pat)
    decreases n
  {
    if n == 0 {
      assert s[..0] + DeleteAll(s[0..], pat) == DeleteAll(s, pat);
    } else {
      assert !OccursAt(s, pat, 0);
      DeleteAllKeepsFirst(s, pat);
      var t := s[1..];
      forall k: nat | k < n - 1 ensures !OccursAt(t, pat, k) {
        assert !OccursAt(s, pat, k + 1);
        if k + |pat| <= |t| {
          assert s[k + 1..k + 1 + |pat|] == t[k..k + |pat|];
        }
      }
      DeleteAllKeepsPrefix(t, n - 1, pat);
      assert t[n - 1..] == s[n..];
      AppendAssoc([s[0]], t[..n - 1], DeleteAll(s[n..], pat));
      assert [s[0]] + t[..n - 1] == s[..n];
    }
  }

  /** DeleteAll drops an occurrence at the start. */
  lemma DeleteAllSkipsMatch(pat: string, rest: string)
    requires pat != []
    ensures DeleteAll(pat + rest, pat) == DeleteAll(rest, pat)
  {
    var s := pat + rest;
    assert s[..|pat|] == pat;
    assert s[|pat|..] == rest;
  }

  /** When no occurrence begins inside `x`, deleting from `x + pat + y`
      keeps `x`, drops the `pat` after it and carries on in `y`. */
  lemma DeleteAllAfterPrefix(x: string, pat: string, y: string)
    requires pat != []
    requires forall k: nat :: k < |x| ==> !OccursAt(x + pat + y, pat, k)
    ensures DeleteAll(x + pat + y, pat) == x + DeleteAll(y, pat)
  {
    var s := x + pat + y;
    DeleteAllKeepsPrefix(s, |x|, pat);
    assert s[..|x|] == x && s[|x|..] == pat + y;
    DeleteAllSkipsMatch(pat, y);
  }

  /** The text between the occurrences DeleteAll removes, in order. */
  function Pieces(s: string, pat: string): (r: seq<string>)
    requires pat != []
    ensures r != []
    decreases |s|
  {
    if |s| < |pat| then [s]
    else if s[..|pat|] == pat then [[]] + Pieces(s[|pat|..], pat)
    else
      var p := Pieces(s[1..], pat);
      [[s[0]] + p[0]] + p[1..]
  }

  /** Putting `pat` back between the pieces gives back the original text. */
  lemma {:induction false} JoinPieces(s: string, pat: string)
    requires pat != []
    ensures Join(Pieces(s, pat), pat) == s
    decreases |s|
  {
    if |s| < |pat| {
    } else if s[..|pat|] == pat {
      var rest := Pieces(s[|pat|..], pat);
      JoinPieces(s[|pat|..], pat);
      var ps := [[]] + rest;
      assert ps[0] == [] && ps[1..] == rest;
      assert Join(ps, pat) == [] + pat + Join(rest, pat);
      assert s == s[..|pat|] + s[|pat|..];
    } else {
      JoinPieces(s[1..], pat);
      JoinPrepend([s[0]], Pieces(s[1..], pat), pat);
      assert s == [s[0]] + s[1..];
    }
  }

  /** Deleting every occurrence leaves exactly the pieces, run together. */
  lemma {:induction false} DeleteAllJoinsPieces(s: string, pat: string)
    requires pat != []
    ensures DeleteAll(s, pat) == Join(Pieces(s, pat), [])
    decreases |s|
  {
    if |s| < |pat| {
    } else if s[..|pat|] == pat {
      var rest := Pieces(s[|pat|..], pat);
      DeleteAllJoinsPieces(s[|pat|..], pat);
      assert ([[]] + rest)[1..] == rest;
      if |rest| == 1 {
        assert Join([[]] + rest, []) == rest[0];
      }
    } else {
      DeleteAllJoinsPieces(s[1..], pat);
      JoinPrepend([s[0]], Pieces(s[1..], pat), []);
    }
  }

  /** An occurrence in the tail of `s` is an occurrence in `s`. */
  lemma ContainsShift(s: string, pat: string)
    requires s != []
    ensures Contains(s[1..], pat) ==> Contains(s, pat)
  {
    if Contains(s[1..], pat) {
      var i: nat :| OccursAt(s[1..], pat, i);
      assert s[i + 1..i + 1 + |pat|] == s[1..][i..i + |pat|];
      assert OccursAt(s, pat, i + 1);
    }
  }

  /** The deletion changes the text exactly when the needle occurs in it. */
  lemma {:induction false} DeleteAllIdentity(s: string, pat: string)
    requires pat != []
    ensures DeleteAll(s, pat) == s <==> !Contains(s, pat)
    decreases |s|
  {
    if |s| < |pat| {
      assert forall i: nat :: !OccursAt(s, pat, i);
    } else if s[..|pat|] == pat {
      assert OccursAt(s, pat, 0);
      assert |DeleteAll(s[|pat|..], pat)| <= |s| - |pat|;
    } else {
      DeleteAllIdentity(s[1..], pat);
      var r := DeleteAll(s, pat);
      if Contains(s, pat) {
        var i: nat :| OccursAt(s, pat, i);
        assert i != 0;
        assert s[1..][i - 1..i - 1 + |pat|] == s[i..i + |pat|];
        assert OccursAt(s[1..], pat, i - 1);
        assert r[1..] == DeleteAll(s[1..], pat);
      } else {
        ContainsShift(s, pat);
        assert s == [s[0]] + s[1..];
      }
    }
  }

  /** The characters PHP's trim() strips by default. */
  const TrimChars: set<char> := {' ', '\t', '\n', '\r', '\0', '\U{B}'}

  /** `s` without its leading characters from `cs`. */
  function TrimLeft(s: string, cs: set<char>): (r: string)
    ensures |r| <= |s|
  {
    if s != [] && s[0] in cs then TrimLeft(s[1..], cs) else s
  }

  /** TrimLeft keeps a suffix of `s` that does not start with a character
      of `cs`, and drops only characters of `cs`. */
  lemma {:induction false} TrimLeftSuffix(s: string, cs: set<char>)
    ensures var r := TrimLeft(s, cs);
            && r == s[|s| - |r|..]
            && (r != [] ==> r[0] !in cs)
            && forall k :: 0 <= k < |s| - |r| ==> s[k] in cs
    decreases |s|
  {
    if s != [] && s[0] in cs {
      TrimLeftSuffix(s[1..], cs);
      var r := TrimLeft(s, cs);
      assert s[1..][|s| - 1 - |r|..] == s[|s| - |r|..];
      forall k | 1 <= k < |s| - |r| ensures s[k] in cs {
        assert s[k] == s[1..][k - 1];
      }
    }
  }

  /** A character left by TrimLeft was in `s`. */
  lemma TrimLeftKeepsFrom(s: string, cs: set<char>, c: char)
    requires c in TrimLeft(s, cs)
    ensures c in s
  {
    TrimLeftSuffix(s, cs);
  }

  /** `s` without its trailing characters from `cs`. */
  function TrimRight(s: string, cs: set<char>): (r: string)
    ensures |r| <= |s|
  {
    if s != [] && s[|s| - 1] in cs then TrimRight(s[..|s| - 1], cs) else s
  }

  /** TrimRight keeps a prefix of `s` that does not end with a character of
      `cs`, and drops only characters of `cs`. */
  lemma {:induction false} TrimRightPrefix(s: string, cs: set<char>)
    ensures var r := TrimRight(s, cs);
            && r == s[..|r|]
            && (r != [] ==> r[|r| - 1] !in cs)
            && forall k :: |r| <= k < |s| ==> s[k] in cs
    decreases |s|
  {
    if s != [] && s[|s| - 1] in cs {
      TrimRightPrefix(s[..|s| - 1], cs);
      var r := TrimRight(s, cs);
      assert s[..|s| - 1][..|r|] == s[..|r|];
      forall k | |r| <= k < |s| - 1 ensures s[k] in cs {
        assert s[k] == s[..|s| - 1][k];
      }
    }
  }

  /** A character left by TrimRight was in `s`. */
  lemma TrimRightKeepsFrom(s: string, cs: set<char>, c: char)
    requires c in TrimRight(s, cs)
    ensures c in s
  {
    TrimRightPrefix(s, cs);
  }

  /** PHP's trim(): `s` without the TrimChars at either end. */
  function Trim(s: string): (r: string)
    ensures r != [] ==> r[0] !in TrimChars && r[|r| - 1] !in TrimChars
  {
    var t := TrimLeft(s, TrimChars);
    TrimLeftSuffix(s, TrimChars);
    TrimRightPrefix(t, TrimChars);
    TrimRight(t, TrimChars)
  }

  /** The result of trim() is the slice s[i..i + |r|] with only TrimChars
      outside it. */
  lemma TrimIsSlice(s: string)
    ensures exists i :: TrimmedAt(s, Trim(s), i)
  {
    var t := TrimLeft(s, TrimChars);
    TrimLeftSuffix(s, TrimChars);
    TrimRightPrefix(t, TrimChars);
    forall k | |s| - |t| + |Trim(s)| <= k < |s| ensures s[k] in TrimChars {
      assert s[k] == t[k - (|s| - |t|)];
    }
    assert TrimmedAt(s, Trim(s), |s| - |t|);
  }

  /** `r` is the slice of `s` at `i`, and only TrimChars lie outside it. */
  ghost predicate TrimmedAt(s: string, r: string, i: int) {
    && 0 <= i <= |s| - |r|
    && r == s[i..i + |r|]
    && (forall k :: 0 <= k < i ==> s[k] in TrimChars)
    && (forall k :: i + |r| <= k < |s| ==> s[k] in TrimChars)
  }

  /** str_replace with single-character needles and an empty replacement:
      `s` with every character of `cs` dropped and the others kept in order. */
  function RemoveChars(s: string, cs: set<char>): (r: string)
    ensures forall k :: 0 <= k < |r| ==> r[k] !in cs
  {
    if s == [] then []
    else (if s[0] in cs then [] else [s[0]]) + RemoveChars(s[1..], cs)
  }

  /** Every other character is kept as often as it occurs, and a string
      without characters from `cs` is left as it is. */
  lemma {:induction false} RemoveCharsKeepsOthers(s: string, cs: set<char>)
    ensures forall c :: c !in cs ==> multiset(RemoveChars(s, cs))[c] == multiset(s)[c]
    ensures (forall k :: 0 <= k < |s| ==> s[k] !in cs) ==> RemoveChars(s, cs) == s
  {
    if s != [] {
      RemoveCharsKeepsOthers(s[1..], cs);
      assert s == [s[0]] + s[1..];
    }
  }

  /** The characters PCRE's \s matches. */
  const PcreSpace: set<char> := {' ', '\t', '\n', '\U{B}', '\U{C}', '\r'}

  /** preg_match('/\S/', s): some character of `s` is not white space. */
  predicate HasNonSpace(s: string) {
    exists k :: 0 <= k < |s| && s[k] !in PcreSpace
  }

  /** The length of the first line of `content`, its line feed included. */
  function FirstLineLength(content: string): (n: nat)
    requires content != []
    ensures 0 < n <= |content|
  {
    match Find(content, "\n")
    case Some(i) => i + 1
    case None => |content|
  }

  /** The first line holds no line feed but its last character, and it
      ends with one unless it is the whole content. */
  lemma FirstLineBreaks(content: string)
    requires content != []
    ensures var n := FirstLineLength(content);
            && (forall k :: 0 <= k < n - 1 ==> content[k] != '\n')
            && (n < |content| ==> content[n - 1] == '\n')
  {
    match Find(content, "\n")
    case Some(i) =>
      assert OccursAt(content, "\n", i);
      assert content[i..i + 1] == "\n";
      forall k | 0 <= k < i ensures content[k] != '\n' {
        assert content[k..k + 1] == [content[k]];
        assert !OccursAt(content, "\n", k);
      }
    case None =>
      forall k | 0 <= k < |content| ensures content[k] != '\n' {
        assert content[k..k + 1] == [content[k]];
        assert !OccursAt(content, "\n", k);
      }
  }

  /** PHP's file(): the lines of `content`, each keeping its line feed; only
      the last may lack one. */
  function FileLines(content: string): (lines: seq<string>)
    ensures |lines| <= |content|
    decreases |content|
  {
    if content == [] then []
    else
      var n := FirstLineLength(content);
      [content[..n]] + FileLines(content[n..])
  }

  /** file() splits off a first line that ends at its first line feed. */
  lemma FileLinesCons(line: string, rest: string)
    requires forall k :: 0 <= k < |line| ==> line[k] != '\n'
    ensures FileLines(line + "\n" + rest) == [line + "\n"] + FileLines(rest)
  {
    var c := line + "\n" + rest;
    assert forall k :: 0 <= k < |line| ==> c[k] == line[k];
    assert c[|line|] == '\n';
    FirstLineBreaks(c);
    var n := FirstLineLength(c);
    assert n == |line| + 1;
    assert c[..n] == line + "\n" && c[n..] == rest;
  }

  /** No line is empty, a line feed can only end a line, and every line but
      the last ends with one. */
  ghost predicate AreLines(lines: seq<string>) {
    && (forall i :: 0 <= i < |lines| ==> lines[i] != [])
    && (forall i, k :: 0 <= i < |lines| && 0 <= k < |lines[i]| - 1 ==> lines[i][k] != '\n')
    && (forall i :: 0 <= i < |lines| - 1 ==> lines[i][|lines[i]| - 1] == '\n')
  }

  lemma {:induction false} FileLinesAreLines(content: string)
    ensures AreLines(FileLines(content))
    decreases |content|
  {
    if content != [] {
      var n := FirstLineLength(content);
      var rest := FileLines(content[n..]);
      FileLinesAreLines(content[n..]);
      FirstLineBreaks(content);
      var lines := [content[..n]] + rest;
      assert FileLines(content) == lines;
      forall i | 0 <= i < |lines|
        ensures lines[i] != []
        ensures forall k :: 0 <= k < |lines[i]| - 1 ==> lines[i][k] != '\n'
        ensures i < |lines| - 1 ==> lines[i][|lines[i]| - 1] == '\n'
      {
        if i == 0 {
          assert lines[0] == content[..n];
          if |lines| > 1 {
            assert content[n..] != [];
          }
        } else {
          assert lines[i] == rest[i - 1];
        }
      }
    }
  }

  /** Running together a first part and the rest. */
  lemma JoinCons(x: string, rest: seq<string>)
    ensures Join([x] + rest, []) == x + Join(rest, [])
  {
    var ps := [x] + rest;
    if rest == [] {
      assert ps == [x] && x + [] == x;
    } else {
      assert ps[0] == x && ps[1..] == rest;
      assert x + [] + Join(rest, []) == x + Join(rest, []);
    }
  }

  /** Running the lines of file() together gives back the file. */
  lemma {:induction false} FileLinesJoin(content: string)
    ensures Join(FileLines(content), []) == content
    decreases |content|
  {
    if content != [] {
      var n := FirstLineLength(content);
      var rest := content[n..];
      assert FileLines(content) == [content[..n]] + FileLines(rest);
      FileLinesJoin(rest);
      JoinCons(content[..n], FileLines(rest));
      assert content == content[..n] + rest;
    }
  }

  /** `s` with its trailing characters that are (slash) or are not (!slash)
      '/' removed. */
  function DropTrailing(s: string, slash: bool): (r: string)
    ensures |r| <= |s| && r == s[..|r|]
    ensures forall k :: |r| <= k < |s| ==> (s[k] == '/') == slash
    ensures r != [] ==> (r[|r| - 1] == '/') != slash
  {
    if s != [] && (s[|s| - 1] == '/') == slash then DropTrailing(s[..|s| - 1], slash) else s
  }

  lemma {:induction false} DropTrailingAppend(s: string, t: string, slash: bool)
    requires forall k :: 0 <= k < |t| ==> (t[k] == '/') == slash
    requires s != [] ==> (s[|s| - 1] == '/') != slash
    ensures DropTrailing(s + t, slash) == s
    decreases |t|
  {
    if t != [] {
      assert (s + t)[..|s + t| - 1] == s + t[..|t| - 1];
      DropTrailingAppend(s, t[..|t| - 1], slash);
    } else {
      assert s + t == s;
    }
  }

  /** PHP's dirname() on POSIX: the path without its last component; the
      empty path stays empty. */
  function Dirname(path: string): string
  {
    if path == [] then ""
    else
      var a := DropTrailing(path, true);
      if a == [] then "/"
      else
        var b := DropTrailing(a, false);
        if b == [] then "."
        else
          var d := DropTrailing(b, true);
          if d == [] then "/" else d
  }

  /** The parent of `dir + "/" + name` is `dir`. */
  lemma DirnameChild(dir: string, name: string)
    requires dir != [] && dir[|dir| - 1] != '/'
    requires name != [] && forall k :: 0 <= k < |name| ==> name[k] != '/'
    ensures Dirname(dir + "/" + name) == dir
  {
    var path := dir + "/" + name;
    DropTrailingAppend(path, [], true);
    assert path + [] == path;
    DropTrailingAppend(dir + "/", name, false);
    DropTrailingAppend(dir, "/", true);
  }

  /** The edge cases: the empty path, the root, a bare name and a name
      under the root. */
  lemma DirnameEdges()
    ensures Dirname("") == "" && Dirname("/") == "/"
    ensures Dirname("a") == "." && Dirname("/a") == "/" && Dirname("a//") == "."
  {
    assert DropTrailing("/", true) == [];
    assert DropTrailing("a", true) == "a" && DropTrailing("a", false) == [];
    assert DropTrailing("/a", true) == "/a" && DropTrailing("/a", false) == "/";
    assert DropTrailing("/", true) == [];
    assert DropTrailing("a//", true) == "a";
  }
}

/** Lexical operations on file paths. */
module Paths {
  import opened Wrappers

  /** What the operating system prescribes: its own delimiter beside '/', and how it folds the case of
      characters (the identity where case matters). */
  datatype System = System(delimiter: char, fold: char -> char)

  predicate IsDelimiter(c: char, sys: System) {
    c == '/' || c == sys.delimiter
  }

  // ----- components -----

  predicate AllDelimiters(s: string, sys: System) {
    forall i :: 0 <= i < |s| ==> IsDelimiter(s[i], sys)
  }

  predicate NoDelimiter(s: string, sys: System) {
    forall i :: 0 <= i < |s| ==> !IsDelimiter(s[i], sys)
  }

  /** How many characters there are before the first delimiter. */
  function RunLength(s: string, sys: System): (n: nat)
    ensures n <= |s| && NoDelimiter(s[..n], sys) && (n < |s| ==> IsDelimiter(s[n], sys))
  {
    if s == "" || IsDelimiter(s[0], sys) then 0
    else
      assert forall k :: 0 < k <= |s| ==> s[..k] == [s[0]] + s[1..][..k - 1];
      1 + RunLength(s[1..], sys)
  }

  /** The names in a path; how many delimiters stand between them does not matter. */
  function Components(s: string, sys: System): (c: seq<string>)
  {
    if s == "" then []
    else if IsDelimiter(s[0], sys) then Components(s[1..], sys)
    else [s[..RunLength(s, sys)]] + Components(s[RunLength(s, sys)..], sys)
  }

  lemma {:induction false} RunOf(a: string, b: string, sys: System)
    requires NoDelimiter(a, sys) && (b == "" || IsDelimiter(b[0], sys))
    ensures RunLength(a + b, sys) == |a|
  {
    if a == "" {
      assert a + b == b;
    } else {
      assert (a + b)[1..] == a[1..] + b;
      RunOf(a[1..], b, sys);
    }
  }

  lemma {:induction false} OnlyDelimiters(s: string, sys: System)
    requires AllDelimiters(s, sys)
    ensures Components(s, sys) == []
  {
    if s != "" {
      OnlyDelimiters(s[1..], sys);
    }
  }

  /** The strings meet at a delimiter, or one of them is empty. */
  predicate Parted(a: string, b: string, sys: System) {
    a == "" || b == "" || IsDelimiter(a[|a| - 1], sys) || IsDelimiter(b[0], sys)
  }

  lemma {:induction false} ComponentsJoin(a: string, b: string, sys: System)
    requires Parted(a, b, sys)
    ensures Components(a + b, sys) == Components(a, sys) + Components(b, sys)
    decreases |a|
  {
    if a == "" {
      assert a + b == b;
    } else if b == "" {
      assert a + b == a;
    } else if IsDelimiter(a[0], sys) {
      assert (a + b)[1..] == a[1..] + b;
      ComponentsJoin(a[1..], b, sys);
    } else {
      var n := RunLength(a, sys);
      NameJoins(a, b, sys);
      assert Components(a + b, sys) == [a[..n]] + Components(a[n..] + b, sys);
      assert Components(a, sys) == [a[..n]] + Components(a[n..], sys);
      hide *;
      ComponentsJoin(a[n..], b, sys);
      assert [a[..n]] + (Components(a[n..], sys) + Components(b, sys)) == [a[..n]] + Components(a[n..], sys) + Components(b, sys);
    }
  }

  /** The first name is the same, whatever follows after a delimiter. */
  lemma NameJoins(a: string, b: string, sys: System)
    requires Parted(a, b, sys) && a != "" && b != "" && !IsDelimiter(a[0], sys)
    ensures var n := RunLength(a, sys);
            && n > 0 && a + b != "" && !IsDelimiter((a + b)[0], sys) && RunLength(a + b, sys) == n && Parted(a[n..], b, sys)
            && (a + b)[..n] == a[..n] && (a + b)[n..] == a[n..] + b
  {
    var n := RunLength(a, sys);
    assert n > 0;
    hide RunLength;
    assert n < |a| || IsDelimiter(b[0], sys) by {
      if n == |a| { assert a[..n][|a| - 1] == a[|a| - 1]; }
    }
    hide NoDelimiter;
    RunOf(a[..n], a[n..] + b, sys);
    CutsAt(a, b, n);
  }

  lemma CutsAt(a: string, b: string, n: nat)
    requires n <= |a|
    ensures (a + b)[..n] == a[..n] && (a + b)[n..] == a[n..] + b && a[..n] + (a[n..] + b) == a + b
  {
  }

  lemma OneComponent(c: string, sys: System)
    requires c != "" && NoDelimiter(c, sys)
    ensures Components(c, sys) == [c]
  {
    RunOf(c, "", sys);
    assert c + "" == c && c[..|c|] == c && c[|c|..] == "";
  }

  /** The names, each behind its separator, and one more separator. */
  ghost function PathOf(names: seq<string>, separators: seq<string>): string
    requires |separators| == |names| + 1
  {
    if names == [] then separators[0] else separators[0] + (names[0] + PathOf(names[1..], separators[1..]))
  }

  /** A separator is of slashes and delimiters of the system. */
  ghost predicate Separates(s: string, sys: System) {
    forall i :: 0 <= i < |s| ==> s[i] == '/' || s[i] == sys.delimiter
  }

  ghost predicate Separable(names: seq<string>, separators: seq<string>, sys: System) {
    && |separators| == |names| + 1
    && (forall i :: 0 <= i < |names| ==> names[i] != "" && '/' !in names[i] && sys.delimiter !in names[i])
    && (forall i :: 0 <= i <= |names| ==> Separates(separators[i], sys))
    && (forall i :: 0 < i < |names| ==> separators[i] != "")
  }

  /** A path is cut into its names at slashes and at delimiters of the system, and nowhere else. */
  lemma {:induction false} PathNames(names: seq<string>, separators: seq<string>, sys: System)
    requires Separable(names, separators, sys)
    ensures Components(PathOf(names, separators), sys) == names
    decreases |names|
  {
    assert Separates(separators[0], sys);
    OnlyDelimiters(separators[0], sys);
    if names != [] {
      var rest, more := PathOf(names[1..], separators[1..]), separators[1..];
      assert names[1..] != [] ==> more[0] != "";
      assert Separates(separators[1], sys);
      PathNames(names[1..], more, sys);
      OneComponent(names[0], sys);
      RestStarts(names[1..], more, sys);
      hide Components, IsDelimiter;
      ComponentsJoin(names[0], rest, sys);
      LeadingSeparator(separators[0], names[0] + rest, sys);
      assert names == [names[0]] + names[1..];
    }
  }

  lemma RestStarts(names: seq<string>, separators: seq<string>, sys: System)
    requires |separators| == |names| + 1 && Separates(separators[0], sys) && (names != [] ==> separators[0] != "")
    ensures var rest := PathOf(names, separators); rest == "" || IsDelimiter(rest[0], sys)
  {
  }

  lemma LeadingSeparator(s: string, t: string, sys: System)
    requires Separates(s, sys)
    ensures Components(s + t, sys) == Components(t, sys)
  {
    OnlyDelimiters(s, sys);
    assert s != "" ==> IsDelimiter(s[|s| - 1], sys);
    hide Components, IsDelimiter;
    ComponentsJoin(s, t, sys);
  }

  // ----- prefixes -----

  predicate SameName(a: string, b: string, sys: System) {
    |a| == |b| && forall k :: 0 <= k < |a| ==> sys.fold(a[k]) == sys.fold(b[k])
  }

  /** The names of `b` begin with those of `a`. */
  predicate BeginsWith(b: seq<string>, a: seq<string>, sys: System) {
    |a| <= |b| && forall k :: 0 <= k < |a| ==> SameName(b[k], a[k], sys)
  }

  predicate AtDelimiter(s: string, i: nat, sys: System)
    requires i <= |s|
  {
    i == |s| || IsDelimiter(s[i], sys)
  }

  /** From the given places on, both are at a delimiter or neither is, and the names match. */
  predicate Matches(path: string, i: nat, prefix: string, j: nat, sys: System)
    requires i <= |path| && j <= |prefix|
  {
    AtDelimiter(path, i, sys) == AtDelimiter(prefix, j, sys) &&
    BeginsWith(Components(path[i..], sys), Components(prefix[j..], sys), sys)
  }

  /** Steps over delimiters. */
  method SkipDelimiters(s: string, from: nat, sys: System) returns (to: nat)
    requires from <= |s|
    ensures from <= to <= |s| && (to < |s| ==> !IsDelimiter(s[to], sys)) && (to == from <==> from == |s| || !IsDelimiter(s[from], sys))
    ensures Components(s[to..], sys) == Components(s[from..], sys)
  {
    to := from;
    while to < |s| && IsDelimiter(s[to], sys)
      invariant from <= to <= |s| && (to > from ==> IsDelimiter(s[from], sys))
      invariant Components(s[to..], sys) == Components(s[from..], sys)
    {
      assert s[to..][1..] == s[to + 1..];
      to := to + 1;
    }
  }

  /** The first `len` characters of the names at both places agree, and neither name ends there. */
  ghost predicate Comparing(path: string, i: nat, prefix: string, j: nat, len: nat, sys: System) {
    && i < |path| && j < |prefix| && !IsDelimiter(path[i], sys) && !IsDelimiter(prefix[j], sys)
    && len < RunLength(path[i..], sys) && len < RunLength(prefix[j..], sys)
    && i + len < |path| && j + len < |prefix| && SameName(path[i..i + len], prefix[j..j + len], sys)
  }

  lemma ComparingStarts(path: string, i: nat, prefix: string, j: nat, sys: System)
    requires i < |path| && j < |prefix| && !IsDelimiter(path[i], sys) && !IsDelimiter(prefix[j], sys)
    ensures Comparing(path, i, prefix, j, 0, sys)
  {
    NameFits(path, i, sys);
    NameFits(prefix, j, sys);
    NothingDiffers(path[i..i + 0], prefix[j..j + 0], sys);
  }

  lemma ComparingGoesOn(path: string, i: nat, prefix: string, j: nat, len: nat, sys: System)
    requires Comparing(path, i, prefix, j, len, sys)
    ensures i + len < |path| && j + len < |prefix|
    ensures sys.fold(path[i + len]) != sys.fold(prefix[j + len]) ==> !Matches(path, i, prefix, j, sys)
    ensures sys.fold(path[i + len]) == sys.fold(prefix[j + len]) ==>
              if AtDelimiter(path, i + len + 1, sys) || AtDelimiter(prefix, j + len + 1, sys)
              then Matches(path, i, prefix, j, sys) <==> Matches(path, i + len + 1, prefix, j + len + 1, sys)
              else Comparing(path, i, prefix, j, len + 1, sys)
  {
    hide Components, RunLength, Matches, SameName, IsDelimiter;
    NameEnds(path, i, len + 1, sys);
    NameEnds(prefix, j, len + 1, sys);
    if sys.fold(path[i + len]) != sys.fold(prefix[j + len]) {
      NamesDiffer(path, i, prefix, j, len, sys);
    } else {
      SameGrows(path, i, prefix, j, len, sys);
      if AtDelimiter(path, i + len + 1, sys) || AtDelimiter(prefix, j + len + 1, sys) {
        NamesAgree(path, i, prefix, j, len + 1, sys);
      }
    }
  }

  /** Compares the names at both places character by character. */
  method CompareNames(path: string, i: nat, prefix: string, j: nat, sys: System) returns (same: bool, len: nat)
    requires i < |path| && j < |prefix| && !IsDelimiter(path[i], sys) && !IsDelimiter(prefix[j], sys)
    ensures same ==> 0 < len && i + len <= |path| && j + len <= |prefix|
    ensures same ==> (Matches(path, i, prefix, j, sys) <==> Matches(path, i + len, prefix, j + len, sys))
    ensures !same ==> !Matches(path, i, prefix, j, sys)
  {
    len := 0;
    ComparingStarts(path, i, prefix, j, sys);
    hide Comparing, Matches, IsDelimiter;
    while true
      invariant Comparing(path, i, prefix, j, len, sys)
      decreases |path| - len
    {
      ComparingGoesOn(path, i, prefix, j, len, sys);
      if sys.fold(path[i + len]) != sys.fold(prefix[j + len]) {
        return false, len;
      }
      len := len + 1;
      if !(i + len < |path| && !IsDelimiter(path[i + len], sys) && j + len < |prefix| && !IsDelimiter(prefix[j + len], sys)) {
        return true, len;
      }
    }
  }

  lemma NameFits(s: string, i: nat, sys: System)
    requires i < |s| && !IsDelimiter(s[i], sys)
    ensures 0 < RunLength(s[i..], sys) && i + RunLength(s[i..], sys) <= |s|
  {
  }

  lemma NameEnds(s: string, i: nat, len: nat, sys: System)
    requires i < |s| && !IsDelimiter(s[i], sys) && 0 < len <= RunLength(s[i..], sys)
    ensures i + len <= |s| && (AtDelimiter(s, i + len, sys) <==> len == RunLength(s[i..], sys))
  {
    FirstName(s, i, sys);
    hide RunLength, Components;
  }

  lemma NothingDiffers(a: string, b: string, sys: System)
    requires |a| == |b| == 0
    ensures SameName(a, b, sys)
  {
  }

  lemma SameGrows(path: string, i: nat, prefix: string, j: nat, len: nat, sys: System)
    requires i + len < |path| && j + len < |prefix| && SameName(path[i..i + len], prefix[j..j + len], sys)
    requires sys.fold(path[i + len]) == sys.fold(prefix[j + len])
    ensures SameName(path[i..i + (len + 1)], prefix[j..j + (len + 1)], sys)
  {
    assert path[i..i + (len + 1)] == path[i..i + len] + [path[i + len]];
    assert prefix[j..j + (len + 1)] == prefix[j..j + len] + [prefix[j + len]];
  }

  lemma FirstName(s: string, i: nat, sys: System)
    requires i < |s| && !IsDelimiter(s[i], sys)
    ensures var n := RunLength(s[i..], sys);
            0 < n && i + n <= |s| && Components(s[i..], sys) == [s[i..i + n]] + Components(s[i + n..], sys)
            && AtDelimiter(s, i + n, sys) && forall k :: i <= k < i + n ==> !IsDelimiter(s[k], sys)
  {
    var n := RunLength(s[i..], sys);
    assert s[i..][..n] == s[i..i + n] && s[i..][n..] == s[i + n..];
    forall k | i <= k < i + n
      ensures !IsDelimiter(s[k], sys)
    {
      assert s[k] == s[i..][..n][k - i];
    }
  }

  lemma NamesDiffer(path: string, i: nat, prefix: string, j: nat, len: nat, sys: System)
    requires i < |path| && j < |prefix| && !IsDelimiter(path[i], sys) && !IsDelimiter(prefix[j], sys)
    requires len < RunLength(path[i..], sys) && len < RunLength(prefix[j..], sys)
    requires sys.fold(path[i + len]) != sys.fold(prefix[j + len])
    ensures !Matches(path, i, prefix, j, sys)
  {
    FirstName(path, i, sys);
    FirstName(prefix, j, sys);
    var a, b := path[i..i + RunLength(path[i..], sys)], prefix[j..j + RunLength(prefix[j..], sys)];
    assert a[len] == path[i + len] && b[len] == prefix[j + len];
    assert Components(path[i..], sys)[0] == a && Components(prefix[j..], sys)[0] == b;
    hide Components, RunLength;
  }

  lemma NamesAgree(path: string, i: nat, prefix: string, j: nat, len: nat, sys: System)
    requires i < |path| && j < |prefix| && !IsDelimiter(path[i], sys) && !IsDelimiter(prefix[j], sys)
    requires 0 < len <= RunLength(path[i..], sys) && len <= RunLength(prefix[j..], sys)
    requires SameName(path[i..i + len], prefix[j..j + len], sys)
    requires AtDelimiter(path, i + len, sys) || AtDelimiter(prefix, j + len, sys)
    ensures Matches(path, i, prefix, j, sys) <==> Matches(path, i + len, prefix, j + len, sys)
  {
    hide Components, RunLength, BeginsWith, SameName, IsDelimiter;
    NameSplits(path, i, sys);
    NameSplits(prefix, j, sys);
    var m, n := RunLength(path[i..], sys), RunLength(prefix[j..], sys);
    var a, b := path[i..i + m], prefix[j..j + n];
    NameEnds(path, i, len, sys);
    NameEnds(prefix, j, len, sys);
    ConsBegins(a, Components(path[i + m..], sys), b, Components(prefix[j + n..], sys), sys);
    if m != n {
      LengthsDiffer(a, b, sys);
    }
  }

  lemma LengthsDiffer(a: string, b: string, sys: System)
    ensures |a| != |b| ==> !SameName(a, b, sys)
  {
  }

  lemma NameSplits(s: string, i: nat, sys: System)
    requires i < |s| && !IsDelimiter(s[i], sys)
    ensures var n := RunLength(s[i..], sys);
            i + n <= |s| && Components(s[i..], sys) == [s[i..i + n]] + Components(s[i + n..], sys)
  {
    FirstName(s, i, sys);
    hide RunLength, Components;
  }

  lemma ConsBegins(a: string, as_: seq<string>, b: string, bs: seq<string>, sys: System)
    ensures BeginsWith([a] + as_, [b] + bs, sys) <==> SameName(a, b, sys) && BeginsWith(as_, bs, sys)
  {
    if BeginsWith([a] + as_, [b] + bs, sys) {
      forall k | 0 <= k < |bs|
        ensures SameName(as_[k], bs[k], sys)
      {
        assert ([a] + as_)[k + 1] == as_[k] && ([b] + bs)[k + 1] == bs[k];
      }
      assert ([a] + as_)[0] == a && ([b] + bs)[0] == b;
    }
  }

  /** Whether the names of the path begin with those of the prefix, both being absolute or both relative.
      An empty prefix is one only of an empty path. */
  method PathStartsWith(path: string, prefix: string, sys: System) returns (r: bool)
    ensures r <==> if prefix == "" then path == "" else Matches(path, 0, prefix, 0, sys)
  {
    if prefix == "" {
      return path == "";
    }
    var pathPos: nat, prefixPos: nat := 0, 0;
    hide Components, Matches;
    while true
      invariant pathPos <= |path| && prefixPos <= |prefix|
      invariant Matches(path, 0, prefix, 0, sys) <==> Matches(path, pathPos, prefix, prefixPos, sys)
      decreases |prefix| - prefixPos
    {
      var delim1, delim2 := AtDelimiter(path, pathPos, sys), AtDelimiter(prefix, prefixPos, sys);
      if delim1 != delim2 {
        DelimitersDiffer(path, pathPos, prefix, prefixPos, sys);
        return false;
      }
      if delim1 {
        ghost var i, j := pathPos, prefixPos;
        pathPos := SkipDelimiters(path, pathPos, sys);
        prefixPos := SkipDelimiters(prefix, prefixPos, sys);
        Skipped(path, i, pathPos, prefix, j, prefixPos, sys);
        if prefixPos == |prefix| {
          return true;
        }
        if pathPos == |path| {
          return false;
        }
      } else {
        var same, len := CompareNames(path, pathPos, prefix, prefixPos, sys);
        if !same {
          return false;
        }
        pathPos, prefixPos := pathPos + len, prefixPos + len;
      }
    }
  }

  lemma DelimitersDiffer(path: string, i: nat, prefix: string, j: nat, sys: System)
    requires i <= |path| && j <= |prefix| && AtDelimiter(path, i, sys) != AtDelimiter(prefix, j, sys)
    ensures !Matches(path, i, prefix, j, sys)
  {
  }

  /** After delimiters in both, what matters is the names that follow; a prefix without more names
      matches, and one with more names does not match a path without. */
  lemma Skipped(path: string, i: nat, i': nat, prefix: string, j: nat, j': nat, sys: System)
    requires i <= i' <= |path| && j <= j' <= |prefix| && AtDelimiter(path, i, sys) && AtDelimiter(prefix, j, sys)
    requires Components(path[i'..], sys) == Components(path[i..], sys) && (i' < |path| ==> !IsDelimiter(path[i'], sys))
    requires Components(prefix[j'..], sys) == Components(prefix[j..], sys) && (j' < |prefix| ==> !IsDelimiter(prefix[j'], sys))
    ensures j' == |prefix| ==> Matches(path, i, prefix, j, sys)
    ensures j' < |prefix| && i' == |path| ==> !Matches(path, i, prefix, j, sys)
    ensures j' < |prefix| && i' < |path| ==> (Matches(path, i, prefix, j, sys) <==> Matches(path, i', prefix, j', sys))
  {
    if j' < |prefix| {
      FirstName(prefix, j', sys);
    }
    if i' == |path| {
      assert path[i'..] == "";
    }
    if j' == |prefix| {
      assert prefix[j'..] == "";
    }
  }

  // ----- removing "." and ".." -----

  predicate IsDot(name: string) {
    name == "."
  }

  predicate IsDotDot(name: string) {
    name == ".."
  }

  /** What is left of a list of names when each ".." takes away the name before it; None if there is a
      ".." without one. */
  function Stacked(names: seq<string>): Option<seq<string>> {
    if names == [] then Some([]) else
      var before, name := Stacked(names[..|names| - 1]), names[|names| - 1];
      if before.None? then None
      else if IsDot(name) then before
      else if IsDotDot(name) then (if before.value == [] then None else Some(before.value[..|before.value| - 1]))
      else Some(before.value + [name])
  }

  /** The same from right to left: `count` names are still to be taken away. */
  function FromRight(names: seq<string>, count: nat): (seq<string>, nat) {
    if names == [] then ([], count) else
      var front, name := names[..|names| - 1], names[|names| - 1];
      if IsDot(name) then FromRight(front, count)
      else if IsDotDot(name) then FromRight(front, count + 1)
      else if count > 0 then FromRight(front, count - 1)
      else (FromRight(front, 0).0 + [name], FromRight(front, 0).1)
  }

  /** Working from the right agrees with the stack. */
  lemma {:induction false} FromRightIsStacked(names: seq<string>, count: nat)
    ensures var st, r := Stacked(names), FromRight(names, count);
            && (st.None? ==> r.1 > 0)
            && (st.Some? && count <= |st.value| ==> r == (st.value[..|st.value| - count], 0))
            && (st.Some? && count > |st.value| ==> r.1 > 0)
  {
    if names != [] {
      var front, name := names[..|names| - 1], names[|names| - 1];
      if IsDot(name) {
        FromRightIsStacked(front, count);
      } else if IsDotDot(name) {
        FromRightIsStacked(front, count + 1);
        if Stacked(front).Some? && Stacked(front).value != [] {
          var v := Stacked(front).value;
          assert count < |v| ==> v[..|v| - 1][..|v| - 1 - count] == v[..|v| - (count + 1)];
        }
      } else if count > 0 {
        FromRightIsStacked(front, count - 1);
        if Stacked(front).Some? {
          var v := Stacked(front).value;
          assert count <= |v| + 1 ==> (v + [name])[..|v| + 1 - count] == v[..|v| - (count - 1)];
        }
      } else {
        FromRightIsStacked(front, 0);
        if Stacked(front).Some? {
          var v := Stacked(front).value;
          assert v[..|v| - 0] == v && (v + [name])[..|v + [name]| - 0] == v + [name];
        }
      }
    }
  }

  /** What follows does not tell apart lists that leave the same. */
  lemma {:induction false} StackedFollows(a: seq<string>, a': seq<string>, b: seq<string>)
    requires Stacked(a) == Stacked(a')
    ensures Stacked(a + b) == Stacked(a' + b)
  {
    hide IsDot, IsDotDot;
    if b == [] {
      assert a + b == a && a' + b == a';
    } else {
      var front, last := b[..|b| - 1], b[|b| - 1];
      StackedFollows(a, a', front);
      Pushed(a + front, last);
      Pushed(a' + front, last);
      assert a + b == (a + front) + [last] && a' + b == (a' + front) + [last];
      hide Stacked;
    }
  }

  lemma Pushed(front: seq<string>, name: string)
    ensures Stacked(front + [name]) ==
            var before := Stacked(front);
            if before.None? then None
            else if IsDot(name) then before
            else if IsDotDot(name) then (if before.value == [] then None else Some(before.value[..|before.value| - 1]))
            else Some(before.value + [name])
  {
    assert (front + [name])[..|front|] == front;
  }

  /** The stack is what these four rules make of a list: "." goes, ".." goes with a name before it, ".."
      at the beginning is an error, and other names stay. */
  lemma StackRules(a: seq<string>, x: string, b: seq<string>)
    ensures Stacked(a + ["."] + b) == Stacked(a + b)
    ensures x != "." && x != ".." ==> Stacked(a + [x, ".."] + b) == Stacked(a + b)
    ensures Stacked([".."] + b) == None
    ensures "." !in a && ".." !in a ==> Stacked(a) == Some(a)
  {
    hide Stacked;
    Pushed(a, ".");
    StackedFollows(a + ["."], a, b);
    if x != "." && x != ".." {
      XAndDots(a, x);
      StackedFollows(a + [x, ".."], a, b);
    }
    NothingToTake(b);
    if "." !in a && ".." !in a {
      PlainStays(a);
    }
  }

  lemma XAndDots(a: seq<string>, x: string)
    requires x != "." && x != ".."
    ensures Stacked(a + [x, ".."]) == Stacked(a)
  {
    hide Stacked;
    Pushed(a, x);
    Pushed(a + [x], "..");
    assert (a + [x]) + [".."] == a + [x, ".."];
  }

  lemma {:induction false} NothingToTake(b: seq<string>)
    ensures Stacked([".."] + b) == None
  {
    if b == [] {
      assert Stacked([]) == Some([]);
      Pushed([], "..");
      assert [".."] + b == [] + [".."];
    } else {
      NothingToTake(b[..|b| - 1]);
      Pushed([".."] + b[..|b| - 1], b[|b| - 1]);
      assert [".."] + b == ([".."] + b[..|b| - 1]) + [b[|b| - 1]];
    }
  }

  predicate Plain(names: seq<string>) {
    forall i :: 0 <= i < |names| ==> !IsDot(names[i]) && !IsDotDot(names[i])
  }

  lemma {:induction false} StackedIsPlain(names: seq<string>)
    ensures Stacked(names).Some? ==> Plain(Stacked(names).value)
  {
    if names != [] {
      StackedIsPlain(names[..|names| - 1]);
    }
  }

  lemma {:induction false} PlainStays(names: seq<string>)
    requires Plain(names)
    ensures Stacked(names) == Some(names)
  {
    hide IsDot, IsDotDot;
    if names != [] {
      var front, last := names[..|names| - 1], names[|names| - 1];
      assert names == front + [last];
      assert !IsDot(last) && !IsDotDot(last);
      PlainStays(front);
    }
  }

  /** The number of names among the first `n`, less two for each ".." and one for each "."; negative when
      some ".." has none. */
  function Depth(names: seq<string>, n: nat): int
    requires n <= |names|
  {
    if n == 0 then 0
    else Depth(names, n - 1) + if IsDot(names[n - 1]) then 0 else if IsDotDot(names[n - 1]) then -1 else 1
  }

  /** No prefix has more ".." than names. */
  predicate NeverNegative(names: seq<string>) {
    forall n: nat :: n <= |names| ==> Depth(names, n) >= 0
  }

  lemma NegativeSomewhere(names: seq<string>, n: nat)
    requires n <= |names| && Depth(names, n) < 0
    ensures !NeverNegative(names)
  {
  }

  /** The stack runs empty exactly if some prefix has more ".." than names. */
  lemma {:induction false} StackedDepth(names: seq<string>)
    ensures Stacked(names).Some? <==> NeverNegative(names)
    ensures Stacked(names).Some? ==> |Stacked(names).value| == Depth(names, |names|)
  {
    if names != [] {
      var front := names[..|names| - 1];
      StackedDepth(front);
      forall n: nat | n <= |front|
        ensures Depth(front, n) == Depth(names, n)
      {
        DepthOfPrefix(names, n);
      }
      assert Depth(names, |names|) == Depth(names, |front|) + if IsDot(names[|front|]) then 0 else if IsDotDot(names[|front|]) then -1 else 1;
      if Stacked(names).Some? {
        forall n: nat | n <= |names|
          ensures Depth(names, n) >= 0
        {
          assert n <= |front| ==> Depth(front, n) >= 0;
        }
      } else if Stacked(front).Some? {
        NegativeSomewhere(names, |names|);
      } else {
        var n: nat :| n <= |front| && Depth(front, n) < 0;
        NegativeSomewhere(names, n);
      }
    }
  }

  lemma {:induction false} DepthOfPrefix(names: seq<string>, n: nat)
    requires n < |names|
    ensures Depth(names[..|names| - 1], n) == Depth(names, n)
  {
    if n > 0 {
      DepthOfPrefix(names, n - 1);
    }
  }

  // ----- the loop over the string -----

  method BackOverDelimiters(s: string, from: nat, sys: System) returns (to: nat)
    requires from <= |s|
    ensures to <= from && AllDelimiters(s[to..from], sys) && (to == 0 || !IsDelimiter(s[to - 1], sys))
  {
    to := from;
    while to != 0 && IsDelimiter(s[to - 1], sys)
      invariant to <= from && AllDelimiters(s[to..from], sys)
    {
      to := to - 1;
      assert s[to..from] == [s[to]] + s[to + 1..from];
    }
  }

  method BackOverName(s: string, from: nat, sys: System) returns (to: nat)
    requires from <= |s|
    ensures to <= from && NoDelimiter(s[to..from], sys) && (to == 0 || IsDelimiter(s[to - 1], sys))
  {
    to := from;
    while to != 0 && !IsDelimiter(s[to - 1], sys)
      invariant to <= from && NoDelimiter(s[to..from], sys)
    {
      to := to - 1;
      assert s[to..from] == [s[to]] + s[to + 1..from];
    }
  }

  predicate SameStart(path: string, orig: string, sys: System) {
    path != "" ==> orig != "" && IsDelimiter(path[0], sys) == IsDelimiter(orig[0], sys)
  }

  /** The names before `pos` are still to be looked at, `count` of them to be taken away; those after it
      stay. No delimiter is left waiting when there is something to take away. */
  ghost predicate Working(orig: string, path: string, pos: nat, count: nat, sys: System) {
    && pos <= |path| && SameStart(path, orig, sys)
    && (pos == 0 || pos == |path| || (IsDelimiter(path[pos - 1], sys) && !IsDelimiter(path[pos], sys)))
    && (count > 0 && pos > 0 ==> pos > 1 && !IsDelimiter(path[pos - 2], sys))
    && Pending(Components(orig, sys), Components(path[..pos], sys), Components(path[pos..], sys), count)
  }

  /** Of the names `all` those of `before` are still to be looked at, and those of `after` stay. */
  ghost predicate Pending(all: seq<string>, before: seq<string>, after: seq<string>, count: nat) {
    FromRight(all, 0) == (FromRight(before, count).0 + after, FromRight(before, count).1)
  }

  /** The last name before `pos`, and the delimiters after it. */
  lemma LastName(path: string, start: nat, end: nat, pos: nat, sys: System)
    requires start <= end <= pos <= |path| && (start == 0 || IsDelimiter(path[start - 1], sys))
    requires NoDelimiter(path[start..end], sys) && AllDelimiters(path[end..pos], sys)
    ensures Components(path[..pos], sys) == Components(path[..start], sys) + if start == end then [] else [path[start..end]]
  {
    assert path[..pos] == path[..start] + (path[start..end] + path[end..pos]);
    assert Parted(path[start..end], path[end..pos], sys);
    ComponentsJoin(path[start..end], path[end..pos], sys);
    OnlyDelimiters(path[end..pos], sys);
    if start < end {
      OneComponent(path[start..end], sys);
    }
    hide Components;
    ComponentsJoin(path[..start], path[start..end] + path[end..pos], sys);
    assert Components(path[start..end], sys) + [] == Components(path[start..end], sys);
  }

  lemma DelimitersVanish(path: string, a: nat, b: nat, sys: System)
    requires a <= b <= |path| && AllDelimiters(path[a..b], sys)
    ensures Components(path[..b], sys) == Components(path[..a], sys)
  {
    assert path[..b] == path[..a] + path[a..b];
    OnlyDelimiters(path[a..b], sys);
    hide Components;
    ComponentsJoin(path[..a], path[a..b], sys);
    assert Components(path[..a], sys) + [] == Components(path[..a], sys);
  }

  lemma Keeps(orig: string, path: string, pos: nat, start: nat, end: nat, sys: System)
    requires Working(orig, path, pos, 0, sys) && start <= end <= pos && (start == 0 || IsDelimiter(path[start - 1], sys))
    requires NoDelimiter(path[start..end], sys) && AllDelimiters(path[end..pos], sys) && pos > 0
    requires if start == end then start == 0 else !IsDot(path[start..end]) && !IsDotDot(path[start..end])
    ensures Working(orig, path, start, 0, sys)
  {
    hide Components, IsDot, IsDotDot, AllDelimiters, SameStart, Pending;
    LastName(path, start, end, pos, sys);
    TailJoins(path, start, end, pos, sys);
    var all, front, tail := Components(orig, sys), Components(path[..start], sys), Components(path[pos..], sys);
    if start == end {
      KeptNames(all, front, [], tail);
    } else {
      KeptNames(all, front, [path[start..end]], tail);
      assert path[start..end][0] == path[start];
    }
  }

  lemma KeptNames(all: seq<string>, front: seq<string>, name: seq<string>, tail: seq<string>)
    requires name == [] || (|name| == 1 && !IsDot(name[0]) && !IsDotDot(name[0]))
    requires Pending(all, front + name, tail, 0)
    ensures Pending(all, front, name + tail, 0)
  {
    if name == [] {
      assert front + [] == front && [] + tail == tail;
    } else {
      assert name == [name[0]];
      FromRightKeeps(front, name[0], 0);
      hide IsDot, IsDotDot;
      assert FromRight(front, 0).0 + [name[0]] + tail == FromRight(front, 0).0 + (name + tail);
    }
  }

  lemma FromRightKeeps(front: seq<string>, name: string, count: nat)
    requires count == 0 && !IsDot(name) && !IsDotDot(name)
    ensures FromRight(front + [name], count) == (FromRight(front, 0).0 + [name], FromRight(front, 0).1)
  {
    assert (front + [name])[..|front|] == front;
  }

  /** How many names are still to be taken away after this one has been taken away. */
  function Next(name: string, count: nat): nat {
    if IsDot(name) then count else if IsDotDot(name) then count + 1 else if count > 0 then count - 1 else 0
  }

  lemma FromRightDrops(front: seq<string>, name: string, count: nat)
    requires count > 0 || IsDot(name) || IsDotDot(name)
    ensures FromRight(front + [name], count) == FromRight(front, Next(name, count))
  {
    assert (front + [name])[..|front|] == front;
  }

  lemma TailJoins(path: string, start: nat, end: nat, pos: nat, sys: System)
    requires start <= end <= pos <= |path| && NoDelimiter(path[start..end], sys) && AllDelimiters(path[end..pos], sys)
    requires pos == |path| || pos == 0 || IsDelimiter(path[pos - 1], sys)
    ensures Components(path[start..], sys) == (if start == end then [] else [path[start..end]]) + Components(path[pos..], sys)
  {
    var a, b, c := path[start..end], path[end..pos], path[pos..];
    assert path[start..] == a + (b + c);
    OnlyDelimiters(b, sys);
    if start < end {
      OneComponent(a, sys);
    }
    if b == "" {
      assert b + c == c;
      if start < end {
        assert a[|a| - 1] == path[end - 1];
      }
    }
    hide Components;
    assert Parted(b, c, sys) by { if b != "" { assert IsDelimiter(b[|b| - 1], sys); } }
    ComponentsJoin(b, c, sys);
    assert Parted(a, b + c, sys) by { if b != "" { assert (b + c)[0] == b[0]; } }
    ComponentsJoin(a, b + c, sys);
    assert [] + Components(c, sys) == Components(c, sys);
  }

  lemma DroppedName(all: seq<string>, front: seq<string>, name: string, tail: seq<string>, count: nat)
    requires Pending(all, front + [name], tail, count) && (count > 0 || IsDot(name) || IsDotDot(name))
    ensures Pending(all, front, tail, Next(name, count))
  {
    FromRightDrops(front, name, count);
  }

  /** Taking a name away keeps everything in order; `cut` is where the names before it end. */
  lemma Drops(orig: string, path: string, pos: nat, count: nat, start: nat, end: nat, cut: nat, sys: System)
    requires Working(orig, path, pos, count, sys) && start < end <= pos && (start == 0 || IsDelimiter(path[start - 1], sys))
    requires NoDelimiter(path[start..end], sys) && AllDelimiters(path[end..pos], sys)
    requires count > 0 || IsDot(path[start..end]) || IsDotDot(path[start..end])
    requires cut <= start && AllDelimiters(path[cut..start], sys) && (cut == 0 || !IsDelimiter(path[cut - 1], sys))
    ensures var path' := if start == 0 then path[pos..] else path[..cut] + [sys.delimiter] + path[pos..];
            Working(orig, path', if cut > 0 then cut + 1 else 0, Next(path[start..end], count), sys)
  {
    LastName(path, start, end, pos, sys);
    DelimitersVanish(path, cut, start, sys);
    var all, front, name, tail := Components(orig, sys), Components(path[..start], sys), path[start..end], path[pos..];
    DroppedName(all, front, name, Components(tail, sys), count);
    CutNames(path, start, cut, pos, sys);
    CutBounds(orig, path, pos, start, end, cut, sys);
    hide Components, IsDot, IsDotDot, Next, FromRight, NoDelimiter, AllDelimiters, SameStart, Pending, IsDelimiter;
  }

  /** After the cut the path begins as before, and the cut is at a delimiter after a name. */
  lemma CutBounds(orig: string, path: string, pos: nat, start: nat, end: nat, cut: nat, sys: System)
    requires start < end <= pos <= |path| && (start == 0 || IsDelimiter(path[start - 1], sys)) && NoDelimiter(path[start..end], sys)
    requires cut <= start && AllDelimiters(path[cut..start], sys) && (cut == 0 || !IsDelimiter(path[cut - 1], sys))
    requires SameStart(path, orig, sys) && (pos == |path| || !IsDelimiter(path[pos], sys))
    ensures var path' := if start == 0 then path[pos..] else path[..cut] + [sys.delimiter] + path[pos..];
            var pos' := if cut > 0 then cut + 1 else 0;
            && pos' <= |path'| && SameStart(path', orig, sys)
            && (pos' == 0 || pos' == |path'| || (IsDelimiter(path'[pos' - 1], sys) && !IsDelimiter(path'[pos'], sys)))
            && (pos' > 0 ==> pos' > 1 && !IsDelimiter(path'[pos' - 2], sys))
  {
    assert path[start] == path[start..end][0];
    StartKept(path, start, cut, pos, sys);
    if cut > 0 {
      var path', tail := path[..cut] + [sys.delimiter] + path[pos..], path[pos..];
      assert path'[cut] == sys.delimiter && path'[cut - 1] == path[cut - 1];
      assert cut + 1 < |path'| ==> path'[cut + 1] == tail[0] == path[pos];
    }
  }

  lemma StartKept(path: string, start: nat, cut: nat, pos: nat, sys: System)
    requires cut <= start < pos <= |path| && AllDelimiters(path[cut..start], sys) && (cut == 0 || !IsDelimiter(path[cut - 1], sys))
    requires (start == 0 || IsDelimiter(path[start - 1], sys)) && !IsDelimiter(path[start], sys)
    requires pos == |path| || !IsDelimiter(path[pos], sys)
    ensures var path' := if start == 0 then path[pos..] else path[..cut] + [sys.delimiter] + path[pos..];
            SameStart(path', path, sys)
  {
    if start > 0 && cut == 0 {
      assert path[cut..start][0] == path[0];
    }
  }

  lemma CutNames(path: string, start: nat, cut: nat, pos: nat, sys: System)
    requires cut <= start <= pos <= |path| && AllDelimiters(path[cut..start], sys)
    requires Components(path[..start], sys) == Components(path[..cut], sys)
    ensures var tail := path[pos..];
            var path' := if start == 0 then tail else path[..cut] + [sys.delimiter] + tail;
            var pos' := if cut > 0 then cut + 1 else 0;
            && pos' <= |path'| && Components(path'[pos'..], sys) == Components(tail, sys)
            && Components(path'[..pos'], sys) == Components(path[..start], sys)
  {
    var tail := path[pos..];
    var path' := if start == 0 then tail else path[..cut] + [sys.delimiter] + tail;
    if start == 0 {
      assert path'[0..] == tail && path'[..0] == path[..0];
    } else {
      OnlyDelimiters([sys.delimiter], sys);
      if cut > 0 {
        assert path'[cut + 1..] == tail && path'[..cut + 1] == path[..cut] + [sys.delimiter];
        ComponentsJoin(path[..cut], [sys.delimiter], sys);
        assert Components(path[..cut], sys) + [] == Components(path[..cut], sys);
      } else {
        assert path'[0..] == [sys.delimiter] + tail && path'[..0] == path[..0];
        ComponentsJoin([sys.delimiter], tail, sys);
        assert [] + Components(tail, sys) == Components(tail, sys);
      }
    }
  }

  predicate TrailingFree(s: string, sys: System) {
    s == "" || !IsDelimiter(s[|s| - 1], sys)
  }

  /** The names of the result are those that the stack leaves; the result is empty if a ".." has nothing
      to take away. Unless it is empty, the result of an absolute path is absolute and that of a relative
      one relative. */
  ghost predicate Normalized(path: string, r: string, sys: System) {
    && (match Stacked(Components(path, sys)) case None => r == "" case Some(names) => Components(r, sys) == names)
    && TrailingFree(r, sys) && SameStart(r, path, sys)
  }

  /** The result is empty exactly if the stack fails or leaves nothing, as of "/a/..". */
  lemma EmptyIfNothingIsLeft(path: string, r: string, sys: System)
    requires Normalized(path, r, sys)
    ensures r == "" <==> Stacked(Components(path, sys)) == None || Stacked(Components(path, sys)) == Some([])
  {
    if Components(r, sys) == [] {
      NoNameIsNothing(r, sys);
    }
    hide Stacked, SameStart;
  }

  lemma {:induction false} NoNameIsNothing(s: string, sys: System)
    requires Components(s, sys) == [] && TrailingFree(s, sys)
    ensures s == ""
  {
    if s != "" && IsDelimiter(s[0], sys) {
      assert |s| > 1 ==> s[1..][|s| - 2] == s[|s| - 1];
      NoNameIsNothing(s[1..], sys);
    }
  }

  method RemoveRelativePathComponents(path0: string, sys: System) returns (r: string)
    ensures Normalized(path0, r, sys)
    ensures r == "" <==> Stacked(Components(path0, sys)) == None || Stacked(Components(path0, sys)) == Some([])
    ensures Plain(Components(path0, sys)) && TrailingFree(path0, sys) ==> r == path0
  {
    hide Working, Components, Plain;
    var path, pos: nat, dotdotCount: nat := path0, |path0|, 0;
    Starts(path0, sys);
    while pos != 0
      invariant Working(path0, path, pos, dotdotCount, sys) && pos <= |path|
      invariant Plain(Components(path0, sys)) ==> path == path0 && dotdotCount == 0
      decreases pos
    {
      var componentWithDelimEnd := pos;
      var componentEnd := BackOverDelimiters(path, pos, sys);
      var componentStart := BackOverName(path, componentEnd, sys);
      var component := path[componentStart..componentEnd];
      WorkingName(path0, path, pos, dotdotCount, componentStart, componentEnd, sys);
      if IsDot(component) || IsDotDot(component) || dotdotCount != 0 {
        pos := BackOverDelimiters(path, componentStart, sys);
        Drops(path0, path, componentWithDelimEnd, dotdotCount, componentStart, componentEnd, pos, sys);
        if componentStart == 0 {
          path := path[componentWithDelimEnd..];
        } else {
          path := path[..pos] + [sys.delimiter] + path[componentWithDelimEnd..];
        }
        if pos > 0 {
          pos := pos + 1;
        }
        dotdotCount := if IsDot(component) then dotdotCount else if IsDotDot(component) then dotdotCount + 1 else dotdotCount - 1;
      } else {
        Keeps(path0, path, pos, componentStart, componentEnd, sys);
        pos := componentStart;
      }
    }
    Finished(path0, path, dotdotCount, sys);
    if dotdotCount > 0 {
      return "";
    }
    pos := BackOverDelimiters(path, |path|, sys);
    TrailingCut(path, pos, sys);
    r := path[..pos];
    EmptyIfNothingIsLeft(path0, r, sys);
  }

  lemma Starts(path: string, sys: System)
    ensures Working(path, path, |path|, 0, sys)
  {
    assert path[..|path|] == path && path[|path|..] == "";
    var r := FromRight(Components(path, sys), 0);
    assert r.0 + [] == r.0;
  }

  /** Where a name begins and ends, and that there is one whenever something has to be taken away. */
  lemma WorkingName(orig: string, path: string, pos: nat, count: nat, start: nat, end: nat, sys: System)
    requires Working(orig, path, pos, count, sys) && 0 < pos && start <= end <= pos
    requires (start == 0 || IsDelimiter(path[start - 1], sys)) && NoDelimiter(path[start..end], sys)
    requires AllDelimiters(path[end..pos], sys) && (end == 0 || !IsDelimiter(path[end - 1], sys))
    ensures start < pos && (start == end ==> start == 0)
    ensures count > 0 || IsDot(path[start..end]) || IsDotDot(path[start..end]) ==> start < end
    ensures Plain(Components(orig, sys)) && path == orig && count == 0 ==> !IsDot(path[start..end]) && !IsDotDot(path[start..end])
  {
    assert end < pos - 1 ==> path[end..pos][pos - 2 - end] == path[pos - 2];
    if start < end {
      LastName(path, start, end, pos, sys);
      if path == orig && Plain(Components(orig, sys)) {
        NamesBefore(path, pos, sys);
        var names := Components(path[..pos], sys);
        assert names[|names| - 1] == path[start..end];
      }
    }
  }

  lemma NamesBefore(path: string, pos: nat, sys: System)
    requires pos <= |path| && Parted(path[..pos], path[pos..], sys) && Plain(Components(path, sys))
    ensures Plain(Components(path[..pos], sys))
  {
    assert path == path[..pos] + path[pos..];
    ComponentsJoin(path[..pos], path[pos..], sys);
    var a, b := Components(path[..pos], sys), Components(path[pos..], sys);
    forall i | 0 <= i < |a|
      ensures !IsDot(a[i]) && !IsDotDot(a[i])
    {
      assert a[i] == (a + b)[i];
    }
  }

  lemma Finished(orig: string, path: string, count: nat, sys: System)
    requires Working(orig, path, 0, count, sys)
    ensures count > 0 <==> Stacked(Components(orig, sys)).None?
    ensures count == 0 ==> Some(Components(path, sys)) == Stacked(Components(orig, sys))
    ensures SameStart(path, orig, sys)
  {
    assert path[..0] == "" && path[0..] == path;
    FromRightIsStacked(Components(orig, sys), 0);
    var st := Stacked(Components(orig, sys));
    assert [] + Components(path, sys) == Components(path, sys);
    if st.Some? {
      assert st.value[..|st.value| - 0] == st.value;
    }
  }

  lemma TrailingCut(path: string, pos: nat, sys: System)
    requires pos <= |path| && AllDelimiters(path[pos..|path|], sys) && (pos == 0 || !IsDelimiter(path[pos - 1], sys))
    ensures Components(path[..pos], sys) == Components(path, sys) && TrailingFree(path[..pos], sys)
    ensures SameStart(path[..pos], path, sys)
    ensures TrailingFree(path, sys) ==> path[..pos] == path
  {
    DelimitersVanish(path, pos, |path|, sys);
    assert path[..|path|] == path;
    assert pos < |path| ==> path[pos..|path|][|path| - 1 - pos] == path[|path| - 1];
  }

  /** A result has no "." and ".." and no delimiter at its end, so that a second application changes
      nothing. */
  lemma NormalizedIsStable(path: string, r: string, sys: System)
    requires Normalized(path, r, sys)
    ensures Plain(Components(r, sys)) && TrailingFree(r, sys)
    ensures Normalized(r, r, sys)
  {
    StackedIsPlain(Components(path, sys));
    PlainStays(Components(r, sys));
  }
}

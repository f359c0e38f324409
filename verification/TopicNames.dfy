/**
 Camera names, absolute topic names, and their ordering
 (ros2_ws/src/vt_realsense_capture/vt_realsense_capture/recorder.py, lines 22-25, and
 ros2_ws/src/vt_realsense_capture/vt_realsense_capture/bag_contract.py, lines 16-17).
 */
module TopicNames {
  predicate IsHead(c: char) {
    'A' <= c <= 'Z' || 'a' <= c <= 'z' || c == '_'
  }

  predicate IsTail(c: char) {
    IsHead(c) || '0' <= c <= '9'
  }

  /** A letter or underscore followed by letters, digits and underscores. */
  predicate IsToken(s: string) {
    |s| > 0 && IsHead(s[0]) && forall i :: 0 <= i < |s| ==> IsTail(s[i])
  }

  /** The position of the first slash at or after `i`, or the length. */
  function SlashFrom(s: string, i: nat): (n: nat)
    requires i <= |s|
    ensures i <= n <= |s|
    ensures forall j :: i <= j < n ==> s[j] != '/'
    ensures n < |s| ==> s[n] == '/'
    decreases |s| - i
  {
    if i < |s| && s[i] != '/' then SlashFrom(s, i + 1) else i
  }

  /** One or more tokens, each after a slash. */
  predicate IsAbsoluteTopic(s: string)
    decreases |s|
  {
    && |s| > 0 && s[0] == '/'
    && var n := SlashFrom(s, 1);
       IsToken(s[1..n]) && (n == |s| || IsAbsoluteTopic(s[n..]))
  }

  /** The part between the first slash and the next: what splitting at slashes puts second. */
  function FirstToken(s: string): string {
    if s == "" then "" else s[1..SlashFrom(s, 1)]
  }

  lemma FirstTokenIsToken(s: string)
    requires IsAbsoluteTopic(s)
    ensures IsToken(FirstToken(s))
  {
  }

  lemma SlashIs(s: string, i: nat, n: nat)
    requires i <= n <= |s| && (forall j :: i <= j < n ==> s[j] != '/') && (n < |s| ==> s[n] == '/')
    ensures SlashFrom(s, i) == n
  {
  }

  /** A token after a slash, before the end or another slash, is the first token. */
  lemma TokenFirst(token: string, rest: string)
    requires IsToken(token) && (rest == "" || rest[0] == '/')
    ensures FirstToken("/" + token + rest) == token
    ensures SlashFrom("/" + token + rest, 1) == 1 + |token|
  {
    var s := "/" + token + rest;
    forall j | 1 <= j < 1 + |token| ensures s[j] != '/' {
      assert s[j] == token[j - 1] && IsTail(token[j - 1]);
    }
    SlashIs(s, 1, 1 + |token|);
    assert s[1..1 + |token|] == token;
  }

  lemma PrefixToken(token: string, rest: string)
    requires IsToken(token) && (rest == "" || IsAbsoluteTopic(rest))
    ensures IsAbsoluteTopic("/" + token + rest)
  {
    TokenFirst(token, rest);
    assert ("/" + token + rest)[1 + |token|..] == rest;
  }

  lemma TwoTokens(a: string, b: string)
    requires IsToken(a) && IsToken(b)
    ensures IsAbsoluteTopic("/" + b) && IsAbsoluteTopic("/" + a + ("/" + b))
  {
    PrefixToken(b, "");
    assert "/" + b + "" == "/" + b;
    PrefixToken(a, "/" + b);
  }

  // ----- Ordering by code points -----

  predicate Less(a: string, b: string) {
    b != "" && (a == "" || a[0] < b[0] || (a[0] == b[0] && Less(a[1..], b[1..])))
  }

  lemma {:induction false} LessIsAsymmetric(a: string, b: string)
    requires Less(a, b)
    ensures !Less(b, a)
  {
    if a != "" && a[0] == b[0] {
      LessIsAsymmetric(a[1..], b[1..]);
    }
  }

  function Insert(x: string, s: seq<string>): seq<string> {
    if s == [] || !Less(s[0], x) then [x] + s else [s[0]] + Insert(x, s[1..])
  }

  /** Python's `sorted` on strings. */
  function Sort(s: seq<string>): seq<string> {
    if s == [] then [] else Insert(s[0], Sort(s[1..]))
  }

  predicate Ascending(s: seq<string>) {
    forall i :: 0 < i < |s| ==> !Less(s[i], s[i - 1])
  }

  lemma ConsAscending(x: string, s: seq<string>)
    requires Ascending(s) && (s == [] || !Less(s[0], x))
    ensures Ascending([x] + s)
  {
    var r := [x] + s;
    forall i | 0 < i < |r| ensures !Less(r[i], r[i - 1]) {
      assert r[i] == s[i - 1];
      assert i > 1 ==> r[i - 1] == s[i - 2];
    }
  }

  lemma TailAscending(s: seq<string>)
    requires s != [] && Ascending(s)
    ensures Ascending(s[1..])
  {
    forall i | 0 < i < |s[1..]| ensures !Less(s[1..][i], s[1..][i - 1]) {
      assert s[1..][i] == s[i + 1] && s[1..][i - 1] == s[i];
    }
  }

  lemma {:induction false} InsertKeeps(x: string, s: seq<string>)
    ensures multiset(Insert(x, s)) == multiset(s) + multiset{x}
    ensures Insert(x, s) != [] && (Insert(x, s)[0] == x || (s != [] && Insert(x, s)[0] == s[0]))
  {
    if s != [] && Less(s[0], x) {
      InsertKeeps(x, s[1..]);
      assert s == [s[0]] + s[1..];
    }
  }

  lemma {:induction false} InsertAscending(x: string, s: seq<string>)
    requires Ascending(s)
    ensures Ascending(Insert(x, s))
  {
    if s == [] || !Less(s[0], x) {
      ConsAscending(x, s);
    } else {
      TailAscending(s);
      InsertAscending(x, s[1..]);
      InsertKeeps(x, s[1..]);
      LessIsAsymmetric(s[0], x);
      assert |s| > 1 ==> !Less(s[1], s[0]);
      ConsAscending(s[0], Insert(x, s[1..]));
    }
  }

  /** Sorting orders a sequence and keeps its elements. */
  lemma {:induction false} SortSorts(s: seq<string>)
    ensures Ascending(Sort(s)) && multiset(Sort(s)) == multiset(s)
  {
    if s != [] {
      SortSorts(s[1..]);
      InsertAscending(s[0], Sort(s[1..]));
      InsertKeeps(s[0], Sort(s[1..]));
      assert s == [s[0]] + s[1..];
    }
  }

  /** What is in order is left alone. */
  lemma {:induction false} SortKeepsAscending(s: seq<string>)
    requires Ascending(s)
    ensures Sort(s) == s
  {
    if s != [] {
      var rest := s[1..];
      TailAscending(s);
      SortKeepsAscending(rest);
      assert rest != [] ==> !Less(s[1], s[0]);
      assert s == [s[0]] + rest;
    }
  }

  lemma SortTwice(s: seq<string>)
    ensures Sort(Sort(s)) == Sort(s)
  {
    SortSorts(s);
    SortKeepsAscending(Sort(s));
  }

  /** Sorting keeps length, members and distinctness. */
  lemma SortKeeps(s: seq<string>)
    ensures |Sort(s)| == |s|
    ensures forall x :: x in Sort(s) <==> x in s
    ensures (forall i, j :: 0 <= i < j < |s| ==> s[i] != s[j])
            ==> forall i, j :: 0 <= i < j < |Sort(s)| ==> Sort(s)[i] != Sort(s)[j]
  {
    SortSorts(s);
    var t := Sort(s);
    assert |multiset(t)| == |t| && |multiset(s)| == |s|;
    forall x ensures x in t <==> x in s {
      assert x in multiset(t) <==> x in multiset(s);
    }
    if forall i, j :: 0 <= i < j < |s| ==> s[i] != s[j] {
      forall i, j | 0 <= i < j < |t| ensures t[i] != t[j] {
        if t[i] == t[j] {
          Twice(t, i, j);
          Once(s, t[i]);
        }
      }
    }
  }

  lemma Twice(t: seq<string>, i: nat, j: nat)
    requires i < j < |t| && t[i] == t[j]
    ensures multiset(t)[t[i]] >= 2
  {
    assert t == t[..j] + t[j..];
    assert t[i] in t[..j] && t[j] in t[j..];
  }

  lemma {:induction false} Once(s: seq<string>, x: string)
    requires forall i, j :: 0 <= i < j < |s| ==> s[i] != s[j]
    ensures multiset(s)[x] <= 1
  {
    if s != [] {
      Once(s[1..], x);
      assert s == [s[0]] + s[1..];
      if s[0] == x {
        assert x !in s[1..];
      }
    }
  }
}

/**
 * How a request path becomes an object key (edge/src/sites.ts, edge/src/serve.ts).
 * The bucket holds more than published sites, so no path may leave its deployment's
 * prefix, whatever its percent-encoding turns into.
 */
module SitePath {
  import opened Common

  // ---- Splitting and joining ----

  predicate NoSlash(s: string) {
    '/' !in s
  }

  ghost predicate NoSlashes(parts: seq<string>) {
    forall i :: 0 <= i < |parts| ==> NoSlash(parts[i])
  }

  function Split(s: string): (parts: seq<string>)
    ensures parts != []
  {
    if s == "" then [""]
    else
      var before, c := Split(s[..|s| - 1]), s[|s| - 1];
      if c == '/' then before + [""] else before[..|before| - 1] + [before[|before| - 1] + [c]]
  }

  function Join(parts: seq<string>): string {
    if parts == [] then ""
    else if |parts| == 1 then parts[0]
    else Join(parts[..|parts| - 1]) + "/" + parts[|parts| - 1]
  }

  lemma JoinMore(parts: seq<string>, p: string)
    requires parts != []
    ensures Join(parts + [p]) == Join(parts) + "/" + p
  {
    assert (parts + [p])[..|parts|] == parts;
  }

  lemma {:induction false} SplitPlain(s: string, p: string)
    requires NoSlash(p)
    ensures var parts := Split(s); Split(s + p) == parts[..|parts| - 1] + [parts[|parts| - 1] + p]
  {
    var parts := Split(s);
    var most, last := parts[..|parts| - 1], parts[|parts| - 1];
    if p == "" {
      assert s + "" == s && last + "" == last;
    } else {
      var q, c := p[..|p| - 1], p[|p| - 1];
      assert c in p && p == q + [c];
      SplitPlain(s, q);
      assert (s + p)[..|s + p| - 1] == s + q;
      assert last + q + [c] == last + p;
      assert Split(s + q) == most + [last + q];
    }
  }

  lemma SplitSlash(s: string, p: string)
    requires NoSlash(p)
    ensures Split(s + "/" + p) == Split(s) + [p]
  {
    assert (s + "/")[..|s|] == s;
    assert Split(s + "/") == Split(s) + [""];
    SplitPlain(s + "/", p);
    assert [] + p == p;
  }

  lemma SplitOnePart(p: string)
    requires NoSlash(p)
    ensures Split(p) == [p]
  {
    SplitPlain("", p);
    assert "" + p == p;
  }

  /** Splitting a joined path gives back its parts. */
  lemma {:induction false} SplitOfJoin(parts: seq<string>)
    requires parts != [] && NoSlashes(parts)
    ensures Split(Join(parts)) == parts
  {
    var before, p := parts[..|parts| - 1], parts[|parts| - 1];
    assert NoSlash(p) && parts == before + [p];
    if before == [] {
      SplitOnePart(p);
    } else {
      SplitOfJoin(before);
      JoinMore(before, p);
      SplitSlash(Join(before), p);
    }
  }

  lemma JoinLastGrows(most: seq<string>, last: string, c: char)
    ensures Join(most + [last + [c]]) == Join(most + [last]) + [c]
  {
    if most != [] {
      JoinMore(most, last + [c]);
      JoinMore(most, last);
    }
  }

  lemma SplitChar(t: string, c: char)
    ensures var before := Split(t);
      Split(t + [c]) == if c == '/' then before + [""] else before[..|before| - 1] + [before[|before| - 1] + [c]]
  {
    assert (t + [c])[..|t|] == t;
  }

  lemma SlashGrows(before: seq<string>)
    requires before != [] && NoSlashes(before)
    ensures Join(before + [""]) == Join(before) + "/" && NoSlashes(before + [""])
  {
    JoinMore(before, "");
    assert Join(before) + "/" + "" == Join(before) + "/";
  }

  lemma CharGrows(most: seq<string>, last: string, c: char)
    requires c != '/' && NoSlashes(most + [last])
    ensures Join(most + [last + [c]]) == Join(most + [last]) + [c] && NoSlashes(most + [last + [c]])
  {
    JoinLastGrows(most, last, c);
    assert NoSlash((most + [last])[|most|]);
    forall i | 0 <= i < |most| ensures NoSlash(most[i]) {
      assert (most + [last])[i] == most[i];
    }
  }

  lemma JoinOfSplitMore(t: string, c: char)
    requires Join(Split(t)) == t && NoSlashes(Split(t))
    ensures Join(Split(t + [c])) == t + [c] && NoSlashes(Split(t + [c]))
  {
    SplitChar(t, c);
    var before := Split(t);
    if c == '/' {
      SlashGrows(before);
    } else {
      var most, last := before[..|before| - 1], before[|before| - 1];
      assert before == most + [last];
      CharGrows(most, last, c);
    }
  }

  /** Joining a path's parts gives back the path, and no part has a slash. */
  lemma {:induction false} JoinOfSplit(s: string)
    ensures Join(Split(s)) == s && NoSlashes(Split(s))
  {
    if s != "" {
      var t, c := s[..|s| - 1], s[|s| - 1];
      JoinOfSplit(t);
      JoinOfSplitMore(t, c);
      assert s == t + [c];
    }
  }

  // ---- Dot segments ----

  predicate Skipped(part: string) {
    part == "" || part == "."
  }

  predicate CleanPart(part: string) {
    part != "" && part != "." && part != ".." && NoSlash(part)
  }

  ghost predicate Clean(parts: seq<string>) {
    forall i :: 0 <= i < |parts| ==> CleanPart(parts[i])
  }

  /** The stack after walking the parts from the left. */
  function Walk(parts: seq<string>): seq<string> {
    if parts == [] then []
    else
      var stack, part := Walk(parts[..|parts| - 1]), parts[|parts| - 1];
      if Skipped(part) then stack
      else if part == ".." then (if stack == [] then [] else stack[..|stack| - 1])
      else stack + [part]
  }

  /**
   * Dot segments read from the right (section 5.2.4 of RFC 3986 with empty
   * segments collapsed): each ".." cancels the nearest part before it that is not
   * itself cancelled, and one with nothing before it is dropped.
   */
  function Resolve(parts: seq<string>, cancel: nat): seq<string> {
    if parts == [] then []
    else
      var before, part := parts[..|parts| - 1], parts[|parts| - 1];
      if Skipped(part) then Resolve(before, cancel)
      else if part == ".." then Resolve(before, cancel + 1)
      else if cancel > 0 then Resolve(before, cancel - 1)
      else Resolve(before, 0) + [part]
  }

  /** The stack machine computes the resolver. */
  lemma {:induction false} WalkResolves(parts: seq<string>, cancel: nat)
    ensures var stack := Walk(parts);
      Resolve(parts, cancel) == if cancel <= |stack| then stack[..|stack| - cancel] else []
  {
    if parts != [] {
      var before, part := parts[..|parts| - 1], parts[|parts| - 1];
      if Skipped(part) {
        WalkResolves(before, cancel);
      } else if part == ".." {
        WalkResolves(before, cancel + 1);
      } else if cancel > 0 {
        WalkResolves(before, cancel - 1);
      } else {
        WalkResolves(before, 0);
      }
    }
  }

  lemma {:induction false} WalkIsClean(parts: seq<string>)
    requires NoSlashes(parts)
    ensures Clean(Walk(parts))
  {
    if parts != [] {
      WalkIsClean(parts[..|parts| - 1]);
      assert NoSlash(parts[|parts| - 1]);
    }
  }

  /** Walking a clean path changes nothing. */
  lemma {:induction false} WalkOfClean(parts: seq<string>)
    requires Clean(parts)
    ensures Walk(parts) == parts
  {
    if parts != [] {
      WalkOfClean(parts[..|parts| - 1]);
      assert CleanPart(parts[|parts| - 1]);
    }
  }

  // ---- Normalising ----

  predicate HasDot(s: string) {
    '.' in s
  }

  predicate EndsWithSlash(s: string) {
    s != "" && s[|s| - 1] == '/'
  }

  const INDEX := "index.html"

  /** The path of some segments: a directory is asked for by its index page. */
  function Finish(segments: seq<string>, directory: bool): string {
    var joined := Join(segments);
    if joined == "" then INDEX
    else if directory || (segments != [] && !HasDot(segments[|segments| - 1])) then joined + "/" + INDEX
    else joined
  }

  function Normalize(raw: string, decode: string -> string): string {
    Finish(Walk(Split(decode(raw))), EndsWithSlash(raw))
  }

  method NormalizeSitePath(raw: string, decode: string -> string) returns (path: string)
    ensures path == Normalize(raw, decode)
  {
    var parts := Split(decode(raw));
    var segments: seq<string> := [];
    var i := 0;
    while i < |parts|
      invariant 0 <= i <= |parts| && segments == Walk(parts[..i])
    {
      assert parts[..i + 1][..i] == parts[..i];
      if parts[i] == "" || parts[i] == "." {
      } else if parts[i] == ".." {
        if segments != [] {
          segments := segments[..|segments| - 1];
        }
      } else {
        segments := segments + [parts[i]];
      }
      i := i + 1;
    }
    assert parts[..i] == parts;
    var joined := Join(segments);
    if joined == "" {
      return INDEX;
    }
    assert segments != [];
    if EndsWithSlash(raw) || !HasDot(segments[|segments| - 1]) {
      return joined + "/" + INDEX;
    }
    return joined;
  }

  lemma {:induction false} CleanJoinIsNotEmpty(parts: seq<string>)
    requires Clean(parts) && parts != []
    ensures Join(parts) != ""
  {
    assert CleanPart(parts[0]);
    if |parts| > 1 {
      assert |"/"| == 1;
    }
  }

  /** A directory becomes its index page. */
  function WithIndex(segments: seq<string>, directory: bool): seq<string> {
    if segments == [] then [INDEX]
    else if directory || !HasDot(segments[|segments| - 1]) then segments + [INDEX]
    else segments
  }

  /** The parts a path is normalised to. */
  function Target(raw: string, decode: string -> string): seq<string> {
    WithIndex(Walk(Split(decode(raw))), EndsWithSlash(raw))
  }

  lemma IndexIsClean()
    ensures CleanPart(INDEX) && HasDot(INDEX)
  {
    assert INDEX[5] == '.';
  }

  lemma WithIndexIsClean(segments: seq<string>, directory: bool)
    requires Clean(segments)
    ensures var parts := WithIndex(segments, directory); parts != [] && Clean(parts) && HasDot(parts[|parts| - 1])
  {
    IndexIsClean();
  }

  lemma TargetIsClean(raw: string, decode: string -> string)
    ensures var parts := Target(raw, decode); parts != [] && Clean(parts) && HasDot(parts[|parts| - 1])
  {
    JoinOfSplit(decode(raw));
    WalkIsClean(Split(decode(raw)));
    WithIndexIsClean(Walk(Split(decode(raw))), EndsWithSlash(raw));
  }

  lemma FinishIsJoined(segments: seq<string>, directory: bool)
    requires Clean(segments)
    ensures Finish(segments, directory) == Join(WithIndex(segments, directory))
  {
    if segments != [] {
      CleanJoinIsNotEmpty(segments);
      JoinMore(segments, INDEX);
    }
  }

  lemma TargetIsJoined(raw: string, decode: string -> string)
    ensures Normalize(raw, decode) == Join(Target(raw, decode))
  {
    JoinOfSplit(decode(raw));
    WalkIsClean(Split(decode(raw)));
    FinishIsJoined(Walk(Split(decode(raw))), EndsWithSlash(raw));
  }

  lemma CleanHasNoSlashes(parts: seq<string>)
    requires Clean(parts)
    ensures NoSlashes(parts)
  {
    forall i | 0 <= i < |parts| ensures NoSlash(parts[i]) {
      assert CleanPart(parts[i]);
    }
  }

  /** For any decoder at all: a non-empty path of segments none of which is empty, "." or "..", the last with a dot. */
  lemma {:induction false} NormalizedIsClean(raw: string, decode: string -> string)
    ensures var parts := Target(raw, decode);
      && parts != [] && Clean(parts) && HasDot(parts[|parts| - 1])
      && Normalize(raw, decode) == Join(parts) && Split(Normalize(raw, decode)) == parts
  {
    TargetIsClean(raw, decode);
    TargetIsJoined(raw, decode);
    CleanHasNoSlashes(Target(raw, decode));
    SplitOfJoin(Target(raw, decode));
  }

  lemma FinishMeans(names: seq<string>, directory: bool)
    requires Clean(names)
    ensures Finish(names, directory) ==
      if names == [] then "index.html"
      else if directory || '.' !in names[|names| - 1] then Join(names + ["index.html"])
      else Join(names)
  {
    if names != [] {
      CleanJoinIsNotEmpty(names);
      JoinMore(names, INDEX);
    }
  }

  lemma WalkIsResolved(parts: seq<string>)
    ensures Walk(parts) == Resolve(parts, 0)
  {
    WalkResolves(parts, 0);
    assert Walk(parts)[..|Walk(parts)| - 0] == Walk(parts);
  }

  /**
   * The path asked for, with its dot segments resolved: the front page if nothing is
   * left, a directory's index page if it ends with a slash or its last name has no
   * dot, and otherwise itself.
   */
  lemma {:induction false} NormalizesAsPromised(raw: string, decode: string -> string)
    ensures var names := Resolve(Split(decode(raw)), 0);
      var directory := raw != "" && raw[|raw| - 1] == '/';
      Normalize(raw, decode) ==
      if names == [] then "index.html"
      else if directory || '.' !in names[|names| - 1] then Join(names + ["index.html"])
      else Join(names)
  {
    WalkIsResolved(Split(decode(raw)));
    JoinOfSplit(decode(raw));
    WalkIsClean(Split(decode(raw)));
    FinishMeans(Walk(Split(decode(raw))), EndsWithSlash(raw));
  }

  /**
   * Normalising is idempotent wherever the decoder leaves the result alone, as it
   * does when there is no percent sign in it.
   */
  lemma {:induction false} SecondPassChangesNothing(raw: string, decode: string -> string)
    requires forall s :: '%' !in s ==> decode(s) == s
    requires '%' !in Normalize(raw, decode)
    ensures Normalize(Normalize(raw, decode), decode) == Normalize(raw, decode)
  {
    var path, parts := Normalize(raw, decode), Target(raw, decode);
    NormalizedIsClean(raw, decode);
    NormalizedIsClean(path, decode);
    WalkOfClean(parts);
    assert decode(path) == path && Walk(Split(path)) == parts;
    CleanDoesNotEndWithSlash(parts);
  }

  lemma {:induction false} CleanDoesNotEndWithSlash(parts: seq<string>)
    requires Clean(parts) && parts != []
    ensures !EndsWithSlash(Join(parts))
  {
    var last := parts[|parts| - 1];
    assert CleanPart(last);
    assert last[|last| - 1] in last;
    var s := Join(parts);
    assert s[|s| - 1] == last[|last| - 1];
  }

  // ---- The object key ----

  const SITE_PREFIX := "tau/sites"

  function ObjectKey(prefix: string, path: string, decode: string -> string): string {
    prefix + "/" + Normalize(path, decode)
  }

  predicate PrefixAllowed(prefix: string) {
    && SITE_PREFIX + "/" <= prefix
    && !EndsWithSlash(prefix)
    && forall i :: 0 <= i < |Split(prefix)| ==> Split(prefix)[i] != ".." && !Skipped(Split(prefix)[i])
  }

  lemma {:induction false} AllowedIsNamed(prefix: string) returns (names: seq<string>)
    requires PrefixAllowed(prefix)
    ensures names != [] && Clean(names) && prefix == SITE_PREFIX + "/" + Join(names)
  {
    var rest := prefix[|SITE_PREFIX + "/"|..];
    names := Split(rest);
    JoinOfSplit(rest);
    SplitOfSites();
    SplitOfTwo(SITE_PREFIX, names);
    assert prefix == SITE_PREFIX + "/" + Join(names);
    forall i | 0 <= i < |names| ensures CleanPart(names[i]) {
      assert Split(prefix)[i + 2] == names[i] && NoSlash(names[i]);
    }
  }

  ghost predicate NamedUnderSites(prefix: string, names: seq<string>) {
    names != [] && Clean(names) && prefix == "tau/sites" + "/" + Join(names)
  }

  /** The prefixes allowed are the names under the one directory of published sites, and no others. */
  lemma {:induction false} AllowedPrefixes(prefix: string)
    ensures PrefixAllowed(prefix) <==> exists names :: NamedUnderSites(prefix, names)
  {
    if PrefixAllowed(prefix) {
      var names := AllowedIsNamed(prefix);
      assert NamedUnderSites(prefix, names);
    }
    forall names | NamedUnderSites(prefix, names) ensures PrefixAllowed(prefix) {
      NamesAreAllowed(prefix, names);
    }
  }

  lemma SplitOfPair(whole: string, first: string, second: string)
    requires whole == first + "/" + second && NoSlash(first) && NoSlash(second)
    ensures Split(whole) == [first, second]
  {
    SplitOnePart(first);
    SplitSlash(first, second);
  }

  lemma SplitOfSites()
    ensures Split(SITE_PREFIX) == ["tau", "sites"]
  {
    SplitOfPair(SITE_PREFIX, "tau", "sites");
  }

  lemma NamesAreAllowed(prefix: string, names: seq<string>)
    requires names != [] && Clean(names) && prefix == SITE_PREFIX + "/" + Join(names)
    ensures PrefixAllowed(prefix)
  {
    SplitOfSites();
    CleanHasNoSlashes(names);
    SplitOfTwo(SITE_PREFIX, names);
    CleanDoesNotEndWithSlash(names);
    CleanJoinIsNotEmpty(names);
    assert prefix[|prefix| - 1] == Join(names)[|Join(names)| - 1];
    forall i | 0 <= i < |Split(prefix)| ensures Split(prefix)[i] != ".." && !Skipped(Split(prefix)[i]) {
      if i >= 2 {
        assert CleanPart(names[i - 2]);
      }
    }
  }

  lemma Associative(a: string, b: string, c: string)
    ensures a + b + c == a + (b + c)
  {
  }

  lemma {:induction false} SplitOfTwo(prefix: string, parts: seq<string>)
    requires parts != [] && NoSlashes(parts)
    ensures Split(prefix + "/" + Join(parts)) == Split(prefix) + parts
  {
    var before, p := parts[..|parts| - 1], parts[|parts| - 1];
    assert NoSlash(p) && parts == before + [p];
    if before == [] {
      SplitSlash(prefix, p);
    } else {
      SplitOfTwo(prefix, before);
      Associative(prefix + "/", Join(before), "/");
      Associative(prefix + "/", Join(before) + "/", p);
      SplitSlash(prefix + "/" + Join(before), p);
      assert Split(prefix) + before + [p] == Split(prefix) + parts;
    }
  }

  /**
   * Under an allowed prefix the key of any path is the prefix, a slash, and a clean
   * path: every segment of it is an ordinary name, so it stays inside the deployment.
   */
  lemma {:induction false} KeyStaysInside(prefix: string, path: string, decode: string -> string)
    requires PrefixAllowed(prefix)
    ensures var key := ObjectKey(prefix, path, decode);
      && prefix + "/" <= key && SITE_PREFIX + "/" <= key
      && Split(key) == Split(prefix) + Target(path, decode) && |Split(key)| > |Split(prefix)|
      && Clean(Split(key))
  {
    var parts, key := Target(path, decode), ObjectKey(prefix, path, decode);
    NormalizedIsClean(path, decode);
    CleanHasNoSlashes(parts);
    SplitOfTwo(prefix, parts);
    JoinOfSplit(prefix);
    forall i | 0 <= i < |Split(key)| ensures CleanPart(Split(key)[i]) {
      if i < |Split(prefix)| {
        assert NoSlash(Split(prefix)[i]);
      } else {
        assert CleanPart(parts[i - |Split(prefix)|]);
      }
    }
  }

  // ---- Serving ----

  /** Whether the last segment of a request path, short of any query, has a dot. */
  function BeforeQuery(s: string): string {
    if s == "" then ""
    else if s[0] == '?' then ""
    else [s[0]] + BeforeQuery(s[1..])
  }

  predicate HasExtension(rawPath: string) {
    var parts := Split(BeforeQuery(rawPath));
    HasDot(parts[|parts| - 1])
  }

  /** A dot with no slash after it. */
  ghost predicate DotInLast(s: string) {
    exists i :: 0 <= i < |s| && s[i] == '.' && forall j :: i < j < |s| ==> s[j] != '/'
  }

  lemma {:induction false} LastPartHasDot(s: string)
    ensures HasDot(Split(s)[|Split(s)| - 1]) <==> DotInLast(s)
  {
    if s != "" {
      var t, c := s[..|s| - 1], s[|s| - 1];
      LastPartHasDot(t);
      if DotInLast(t) && c != '/' {
        var i :| 0 <= i < |t| && t[i] == '.' && forall j :: i < j < |t| ==> t[j] != '/';
        assert s[i] == '.' && forall j :: i < j < |s| ==> s[j] != '/';
      }
      if c == '.' {
        assert s[|s| - 1] == '.';
      }
      if DotInLast(s) && c != '.' {
        var i :| 0 <= i < |s| && s[i] == '.' && forall j :: i < j < |s| ==> s[j] != '/';
        assert t[i] == '.' && forall j :: i < j < |t| ==> t[j] != '/';
      }
    }
  }

  lemma {:induction false} BeforeQueryMeans(s: string)
    ensures BeforeQuery(s) <= s && '?' !in BeforeQuery(s)
    ensures |BeforeQuery(s)| < |s| ==> s[|BeforeQuery(s)|] == '?'
  {
    if s != "" && s[0] != '?' {
      BeforeQueryMeans(s[1..]);
      assert s == [s[0]] + s[1..];
    }
  }

  /** The part of a request path before any query has a name with a dot in it at its end, the cut being `cut`. */
  lemma {:induction false} ExtensionMeans(rawPath: string, cut: nat)
    requires cut <= |rawPath| && '?' !in rawPath[..cut] && (cut == |rawPath| || rawPath[cut] == '?')
    ensures HasExtension(rawPath) <==>
      exists i :: 0 <= i < cut && rawPath[i] == '.' && forall j :: i < j < cut ==> rawPath[j] != '/'
  {
    BeforeQueryMeans(rawPath);
    var before := BeforeQuery(rawPath);
    LastPartHasDot(before);
    assert forall k :: 0 <= k < cut ==> rawPath[k] == rawPath[..cut][k] && rawPath[..cut][k] in rawPath[..cut];
    assert forall k :: 0 <= k < |before| ==> before[k] in before && before[k] == rawPath[k];
    assert before == rawPath[..cut];
    if DotInLast(before) {
      var i :| 0 <= i < |before| && before[i] == '.' && forall j :: i < j < |before| ==> before[j] != '/';
      assert rawPath[i] == '.' && forall j :: i < j < cut ==> rawPath[j] != '/';
    }
    if i :| 0 <= i < cut && rawPath[i] == '.' && forall j :: i < j < cut ==> rawPath[j] != '/' {
      assert before[i] == '.' && forall j :: i < j < |before| ==> before[j] != '/';
    }
  }

  datatype Served = Served(path: string, key: string)

  /**
   * The file a request gets, from the keys the bucket has: its own, or the front
   * page for a path with no extension. Nothing is served from a prefix that is not
   * allowed, and nothing outside an allowed one.
   */
  method FindObject(bucket: set<string>, prefix: string, rawPath: string, decode: string -> string)
    returns (r: Option<Served>)
    ensures var first := ObjectKey(prefix, Normalize(rawPath, decode), decode);
      var front := ObjectKey(prefix, INDEX, decode);
      && (r.Some? <==> PrefixAllowed(prefix) && (first in bucket || (front in bucket && !HasExtension(rawPath))))
      && (r.Some? ==> r.value.key == if first in bucket then first else front)
      && (r.Some? ==> r.value.path == if first in bucket then Normalize(rawPath, decode) else INDEX)
    ensures r.Some? ==> r.value.key in bucket && prefix + "/" <= r.value.key && Clean(Split(r.value.key))
  {
    if !PrefixAllowed(prefix) {
      return None;
    }
    var path := NormalizeSitePath(rawPath, decode);
    var key := ObjectKey(prefix, path, decode);
    KeyStaysInside(prefix, path, decode);
    var found := key in bucket;
    if !found && !HasExtension(rawPath) {
      path := INDEX;
      key := ObjectKey(prefix, path, decode);
      KeyStaysInside(prefix, path, decode);
      found := key in bucket;
    }
    r := if found then Some(Served(path, key)) else None;
  }
}

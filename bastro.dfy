/** The folder-to-route mapper of lib/bastro/index.ts.
 *
 *  A folder is walked depth first; each file path is split by a pattern built from the
 *  escaped folder path into a sub-path and a file name; from those a URL is derived
 *  (index.html collapses, other names are cut at their first dot) and one GET route is
 *  registered per file, answering with the file's content as read at setup.
 */
module Bastro {
  import opened Wrappers
  import opened BServer

  /** A directory entry, in the order the listing returns it. */
  datatype Entry = File(name: string, content: string) | Dir(name: string, entries: seq<Entry>)

  // ---------------------------------------------------------------------------------
  // listAllFiles

  /** listAllFiles: for each listed item, the files below it if it is a directory, else
   *  its own path; paths are built with "/". */
  function ListAllFiles(folderPath: string, items: seq<Entry>): seq<string>
    decreases items
  {
    if items == [] then []
    else
      (match items[0]
       case File(n, _) => [folderPath + "/" + n]
       case Dir(n, es) => ListAllFiles(folderPath + "/" + n, es))
      + ListAllFiles(folderPath, items[1..])
  }

  /** Every name sequence in `ps`, preceded by `n`. */
  function Prefixed(n: string, ps: seq<seq<string>>): (r: seq<seq<string>>)
    ensures |r| == |ps| && forall i :: 0 <= i < |ps| ==> r[i] == [n] + ps[i]
  {
    seq(|ps|, i requires 0 <= i < |ps| => [n] + ps[i])
  }

  /** The names along the tree from the folder to each file, in preorder. */
  function FilePaths(items: seq<Entry>): seq<seq<string>>
    decreases items
  {
    if items == [] then []
    else
      (match items[0]
       case File(n, _) => [[n]]
       case Dir(n, es) => Prefixed(n, FilePaths(es)))
      + FilePaths(items[1..])
  }

  /** The content of each file, in preorder. */
  function FileContents(items: seq<Entry>): seq<string>
    decreases items
  {
    if items == [] then []
    else
      (match items[0]
       case File(_, c) => [c]
       case Dir(_, es) => FileContents(es))
      + FileContents(items[1..])
  }

  /** The number of non-directory entries at any depth. */
  function FileCount(items: seq<Entry>): nat
    decreases items
  {
    if items == [] then 0
    else (match items[0] case File(_, _) => 1 case Dir(_, es) => FileCount(es)) + FileCount(items[1..])
  }

  /** "/" before each name: "/n1/n2/.../nk". */
  function JoinPath(names: seq<string>): string {
    if names == [] then "" else "/" + names[0] + JoinPath(names[1..])
  }

  /** The names joined by "/": "n1/n2/.../nk". */
  function JoinSub(names: seq<string>): string {
    if names == [] then ""
    else if |names| == 1 then names[0]
    else names[0] + "/" + JoinSub(names[1..])
  }

  /** The entry reached by following `names` from this listing. */
  function Lookup(items: seq<Entry>, names: seq<string>): Option<Entry>
    decreases names, items
  {
    if names == [] || items == [] then None
    else if items[0].name == names[0] then
      if |names| == 1 then Some(items[0])
      else (match items[0] case File(_, _) => None case Dir(_, es) => Lookup(es, names[1..]))
    else Lookup(items[1..], names)
  }

  /** The names within each directory are distinct, as in a real file system. */
  predicate UniqueNames(items: seq<Entry>)
    decreases items
  {
    (forall i, j :: 0 <= i < j < |items| ==> items[i].name != items[j].name) &&
    (forall i :: 0 <= i < |items| ==> items[i].Dir? ==> UniqueNames(items[i].entries))
  }

  lemma {:induction false} ListAllFilesAppend(folderPath: string, a: seq<Entry>, b: seq<Entry>)
    ensures ListAllFiles(folderPath, a + b) == ListAllFiles(folderPath, a) + ListAllFiles(folderPath, b)
  {
    if a == [] {
      assert a + b == b;
    } else {
      assert (a + b)[1..] == a[1..] + b;
      ListAllFilesAppend(folderPath, a[1..], b);
    }
  }

  /** Depth-first preorder: the files of a subdirectory appear together, at its place. */
  lemma SubdirectoryContiguous(folderPath: string, before: seq<Entry>, n: string, es: seq<Entry>, after: seq<Entry>)
    ensures ListAllFiles(folderPath, before + [Dir(n, es)] + after)
         == ListAllFiles(folderPath, before) + ListAllFiles(folderPath + "/" + n, es) + ListAllFiles(folderPath, after)
  {
    var d := [Dir(n, es)];
    assert before + d + after == before + (d + after);
    ListAllFilesAppend(folderPath, before, d + after);
    assert (d + after)[1..] == after;
  }

  /** The files a single item contributes: its own path, or those below it. */
  function ItemFiles(folderPath: string, e: Entry): seq<string> {
    match e
    case File(n, _) => [folderPath + "/" + n]
    case Dir(n, es) => ListAllFiles(folderPath + "/" + n, es)
  }

  function ItemPaths(e: Entry): seq<seq<string>> {
    match e
    case File(n, _) => [[n]]
    case Dir(n, es) => Prefixed(n, FilePaths(es))
  }

  function ItemContents(e: Entry): seq<string> {
    match e
    case File(_, c) => [c]
    case Dir(_, es) => FileContents(es)
  }

  /** One path, one name sequence and one content per non-directory entry at any depth. */
  lemma {:induction false} WalkLengths(folderPath: string, items: seq<Entry>)
    ensures |ListAllFiles(folderPath, items)| == |FilePaths(items)| == |FileContents(items)| == FileCount(items)
    decreases items
  {
    if items != [] {
      WalkLengths(folderPath, items[1..]);
      match items[0]
      case File(_, _) =>
      case Dir(n, es) => WalkLengths(folderPath + "/" + n, es);
    }
  }

  /** Each emitted path is the folder followed by "/" and the names along the tree down to
   *  the file. */
  lemma {:induction false} WalkShape(folderPath: string, items: seq<Entry>)
    ensures |ListAllFiles(folderPath, items)| == |FilePaths(items)| == |FileContents(items)| == FileCount(items)
    ensures forall i :: 0 <= i < |FilePaths(items)| ==>
              ListAllFiles(folderPath, items)[i] == folderPath + JoinPath(FilePaths(items)[i])
    decreases items, 1
  {
    WalkLengths(folderPath, items);
    if items != [] {
      var e := items[0];
      var hl, hp := ItemFiles(folderPath, e), ItemPaths(e);
      var tl, tp := ListAllFiles(folderPath, items[1..]), FilePaths(items[1..]);
      assert ListAllFiles(folderPath, items) == hl + tl;
      assert FilePaths(items) == hp + tp;
      WalkShape(folderPath, items[1..]);
      WalkLengths(folderPath, [e]);
      assert [e][1..] == [];
      assert |hl| == |hp|;
      HeadShape(folderPath, e);
      forall i | 0 <= i < |hp + tp| ensures (hl + tl)[i] == folderPath + JoinPath((hp + tp)[i]) {
        if i >= |hp| {
          assert (hl + tl)[i] == tl[i - |hp|] && (hp + tp)[i] == tp[i - |hp|];
        }
      }
    }
  }

  lemma HeadShape(folderPath: string, e: Entry)
    ensures |ItemFiles(folderPath, e)| == |ItemPaths(e)|
    ensures forall i :: 0 <= i < |ItemPaths(e)| ==> ItemFiles(folderPath, e)[i] == folderPath + JoinPath(ItemPaths(e)[i])
    decreases e, 0
  {
    match e
    case File(n, _) =>
      assert JoinPath([n]) == "/" + n + JoinPath([]);
    case Dir(n, es) =>
      WalkShape(folderPath + "/" + n, es);
      forall i | 0 <= i < |FilePaths(es)|
        ensures ListAllFiles(folderPath + "/" + n, es)[i] == folderPath + JoinPath([n] + FilePaths(es)[i])
      {
        DirPath(folderPath, n, FilePaths(es)[i]);
      }
  }

  lemma DirPath(folderPath: string, n: string, p: seq<string>)
    ensures folderPath + JoinPath([n] + p) == folderPath + "/" + n + JoinPath(p)
  {
    assert ([n] + p)[1..] == p;
  }

  function Last(p: seq<string>): string
    requires |p| > 0
  {
    p[|p| - 1]
  }

  /** The listing split into its first item's part and the rest's. */
  lemma SplitListing(items: seq<Entry>)
    requires items != []
    ensures FilePaths(items) == ItemPaths(items[0]) + FilePaths(items[1..])
    ensures FileContents(items) == ItemContents(items[0]) + FileContents(items[1..])
    ensures |ItemPaths(items[0])| == |ItemContents(items[0])|
  {
    WalkLengths("", [items[0]]);
    assert [items[0]][1..] == [];
  }

  lemma UniqueTail(items: seq<Entry>)
    requires items != [] && UniqueNames(items)
    ensures UniqueNames(items[1..])
  {
    assert forall i :: 0 <= i < |items[1..]| ==> items[1..][i] == items[i + 1];
  }

  /** Every emitted path leads to a file (never to a directory), and its content is that
   *  file's. */
  lemma {:induction false} WalkFindsFile(items: seq<Entry>, i: nat)
    requires UniqueNames(items)
    requires i < |FilePaths(items)|
    ensures |FileContents(items)| == |FilePaths(items)| && |FilePaths(items)[i]| > 0
    ensures Lookup(items, FilePaths(items)[i]) == Some(File(Last(FilePaths(items)[i]), FileContents(items)[i]))
    decreases items, 1
  {
    var e := items[0];
    SplitListing(items);
    var hp := ItemPaths(e);
    if i < |hp| {
      HeadFinds(items, e, i);
      WalkLengths("", items[1..]);
      assert FilePaths(items)[i] == hp[i] && FileContents(items)[i] == ItemContents(e)[i];
    } else {
      var j := i - |hp|;
      var tail := items[1..];
      UniqueTail(items);
      WalkFindsFile(tail, j);
      FilePathHead(tail, j);
      var q := FilePaths(tail)[j];
      assert FilePaths(items)[i] == q && FileContents(items)[i] == FileContents(tail)[j];
      var m :| 0 <= m < |tail| && tail[m].name == q[0];
      assert items[0].name != items[m + 1].name;
      assert Lookup(items, q) == Lookup(tail, q);
    }
  }

  /** The paths of the first item lead, from the whole listing, to its files. */
  lemma HeadFinds(items: seq<Entry>, e: Entry, i: nat)
    requires items != [] && items[0] == e && UniqueNames(items)
    requires i < |ItemPaths(e)|
    ensures |ItemContents(e)| == |ItemPaths(e)| && |ItemPaths(e)[i]| > 0
    ensures Lookup(items, ItemPaths(e)[i]) == Some(File(Last(ItemPaths(e)[i]), ItemContents(e)[i]))
    decreases e, 0
  {
    SplitListing(items);
    match e
    case File(n, c) =>
    case Dir(n, es) =>
      WalkFindsFile(es, i);
      var q := FilePaths(es)[i];
      assert ItemPaths(e)[i] == [n] + q;
      assert ([n] + q)[1..] == q;
  }

  /** Each name sequence starts with the name of one of the listed items. */
  lemma {:induction false} FilePathHead(items: seq<Entry>, i: nat)
    requires i < |FilePaths(items)|
    ensures |FilePaths(items)[i]| > 0
    ensures exists m :: 0 <= m < |items| && items[m].name == FilePaths(items)[i][0]
    decreases items
  {
    SplitListing(items);
    var hp := ItemPaths(items[0]);
    if i < |hp| {
      match items[0]
      case File(n, _) =>
      case Dir(n, es) =>
        assert hp[i] == [n] + FilePaths(es)[i];
      assert items[0].name == hp[i][0];
    } else {
      FilePathHead(items[1..], i - |hp|);
      var m :| 0 <= m < |items[1..]| && items[1..][m].name == FilePaths(items[1..])[i - |hp|][0];
      assert items[m + 1].name == FilePaths(items)[i][0];
    }
  }

  /** Conversely, every file of the tree, at any depth, is emitted, with its content. */
  lemma {:induction false} FilesAreListed(items: seq<Entry>, names: seq<string>, n: string, c: string)
    requires Lookup(items, names) == Some(File(n, c))
    ensures exists i :: 0 <= i < |FilePaths(items)| && i < |FileContents(items)|
                        && FilePaths(items)[i] == names && FileContents(items)[i] == c
    decreases names, |items|, 1
  {
    SplitListing(items);
    var hp, hc := ItemPaths(items[0]), ItemContents(items[0]);
    var tp, tc := FilePaths(items[1..]), FileContents(items[1..]);
    if items[0].name == names[0] {
      assert Lookup([items[0]], names) == Lookup(items, names);
      ListedInHead(items[0], names, n, c);
      var k :| 0 <= k < |hp| && hp[k] == names && hc[k] == c;
      ListedAt(hp + tp, hc + tc, k, names, c);
    } else {
      var tail := items[1..];
      assert Lookup(tail, names) == Some(File(n, c));
      FilesAreListed(tail, names, n, c);
      var k :| 0 <= k < |tp| && k < |tc| && tp[k] == names && tc[k] == c;
      ListedAfter(hp, tp, hc, tc, k, names, c);
    }
  }

  lemma ListedAt(ps: seq<seq<string>>, cs: seq<string>, i: nat, names: seq<string>, c: string)
    requires i < |ps| && i < |cs| && ps[i] == names && cs[i] == c
    ensures exists j :: 0 <= j < |ps| && j < |cs| && ps[j] == names && cs[j] == c
  {
  }

  lemma ListedAfter(hp: seq<seq<string>>, tp: seq<seq<string>>, hc: seq<string>, tc: seq<string>,
                    k: nat, names: seq<string>, c: string)
    requires |hp| == |hc| && k < |tp| && k < |tc| && tp[k] == names && tc[k] == c
    ensures exists j :: 0 <= j < |hp + tp| && j < |hc + tc| && (hp + tp)[j] == names && (hc + tc)[j] == c
  {
    assert (hp + tp)[|hp| + k] == names && (hc + tc)[|hp| + k] == c;
  }

  /** The file an item's name leads to is among that item's own files. */
  lemma ListedInHead(e: Entry, names: seq<string>, n: string, c: string)
    requires names != [] && e.name == names[0]
    requires Lookup([e], names) == Some(File(n, c))
    ensures |ItemPaths(e)| == |ItemContents(e)|
    ensures exists k :: 0 <= k < |ItemPaths(e)| && ItemPaths(e)[k] == names && ItemContents(e)[k] == c
    decreases names, 1, 0
  {
    match e
    case File(fn, fc) =>
      assert |names| == 1 && names == [fn];
      assert ItemPaths(e)[0] == names && ItemContents(e)[0] == c;
    case Dir(dn, es) =>
      assert |names| > 1 && Lookup(es, names[1..]) == Some(File(n, c));
      WalkLengths("", es);
      FilesAreListed(es, names[1..], n, c);
      var ps, cs := FilePaths(es), FileContents(es);
      var k :| 0 <= k < |ps| && k < |cs| && ps[k] == names[1..] && cs[k] == c;
      ListedUnder(dn, ps, cs, k, names, c);
  }

  lemma ListedUnder(dn: string, ps: seq<seq<string>>, cs: seq<string>, k: nat, names: seq<string>, c: string)
    requires |ps| == |cs| && k < |ps| && names != [] && names[0] == dn
    requires ps[k] == names[1..] && cs[k] == c
    ensures exists j :: 0 <= j < |Prefixed(dn, ps)| && Prefixed(dn, ps)[j] == names && cs[j] == c
  {
    assert Prefixed(dn, ps)[k] == [dn] + names[1..] == names;
  }

  /** Exactly one emitted path per non-directory entry at any depth. */
  lemma OnePathPerFile(folderPath: string, items: seq<Entry>)
    ensures |ListAllFiles(folderPath, items)| == FileCount(items)
  {
    WalkShape(folderPath, items);
  }

  // ---------------------------------------------------------------------------------
  // buildRegex: escaping the folder path

  /** The characters the escaping step protects: . * + ? ^ $ { } ( ) | [ ] \ */
  predicate IsRegexSpecial(c: char) {
    c in {'.', '*', '+', '?', '^', '$', '{', '}', '(', ')', '|', '[', ']', '\\'}
  }

  /** `folderPath.replace(/[.*+?^${}()|[\]\\]/g, "\\$&")` */
  function Escape(s: string): string {
    if s == [] then [] else (if IsRegexSpecial(s[0]) then ['\\', s[0]] else [s[0]]) + Escape(s[1..])
  }

  /** The string a pattern text matches when it is made only of ordinary characters and
   *  backslash-escaped special characters; None for any other pattern text. */
  function LiteralOf(p: string): Option<string> {
    if p == [] then Some([])
    else if p[0] == '\\' then
      if |p| >= 2 && IsRegexSpecial(p[1]) then
        (match LiteralOf(p[2..]) case None => None case Some(t) => Some([p[1]] + t))
      else None
    else if IsRegexSpecial(p[0]) then None
    else (match LiteralOf(p[1..]) case None => None case Some(t) => Some([p[0]] + t))
  }

  lemma {:induction false} EscapeAppend(a: string, b: string)
    ensures Escape(a + b) == Escape(a) + Escape(b)
  {
    if a == [] {
      assert a + b == b;
    } else {
      assert (a + b)[1..] == a[1..] + b;
      EscapeAppend(a[1..], b);
    }
  }

  /** Escaping character by character: a backslash before each special character, every
   *  other character unchanged. */
  lemma EscapeSnoc(s: string, c: char)
    ensures Escape(s + [c]) == Escape(s) + if IsRegexSpecial(c) then ['\\', c] else [c]
  {
    EscapeAppend(s, [c]);
    assert [c][1..] == [];
  }

  /** Removing the inserted backslashes recovers the folder path: the escaped text, used
   *  as a pattern, matches exactly the folder path, literally. */
  lemma {:induction false} LiteralOfEscape(s: string)
    ensures LiteralOf(Escape(s)) == Some(s)
  {
    if s != [] {
      LiteralOfEscape(s[1..]);
      var e := Escape(s);
      if IsRegexSpecial(s[0]) {
        assert e == ['\\', s[0]] + Escape(s[1..]);
        assert e[0] == '\\' && e[1] == s[0] && e[2..] == Escape(s[1..]);
        assert LiteralOf(e) == Some([s[0]] + s[1..]);
        assert [s[0]] + s[1..] == s;
      } else {
        assert e == [s[0]] + Escape(s[1..]);
        assert e[0] == s[0] && e[1..] == Escape(s[1..]);
        assert LiteralOf(e) == Some([s[0]] + s[1..]);
        assert [s[0]] + s[1..] == s;
      }
    }
  }

  // ---------------------------------------------------------------------------------
  // buildRegex: the match of `^<escaped>(?:/(.*?))?/([^/]+)$`

  /** The regular expression buildRegex returns, kept as its one variable part. */
  datatype FileRegex = FileRegex(escapedFolder: string)

  /** The two capture groups: the sub-path (absent when the optional group did not take
   *  part) and the file name. */
  datatype Groups = Groups(sub: Option<string>, name: string)

  function BuildRegex(folderPath: string): (re: FileRegex)
    ensures LiteralOf(re.escapedFolder) == Some(folderPath)
  {
    LiteralOfEscape(folderPath);
    FileRegex(Escape(folderPath))
  }

  /** The characters `.` does not match. */
  predicate IsLineTerminator(c: char) {
    c == '\n' || c == '\r' || c == '\U{2028}' || c == '\U{2029}'
  }

  predicate NoLineTerminator(s: string) {
    forall k :: 0 <= k < |s| ==> !IsLineTerminator(s[k])
  }

  /** What `[^/]+` matches: a non-empty name without "/". */
  predicate PlainName(s: string) {
    s != "" && '/' !in s
  }

  /** The position of the last "/" in `s`, or -1. */
  function LastSlash(s: string): (k: int)
    ensures -1 <= k < |s|
    ensures k >= 0 ==> s[k] == '/'
  {
    LastSlashBefore(s, |s|)
  }

  /** The position of the last "/" among the first `n` characters of `s`, or -1. */
  function LastSlashBefore(s: string, n: nat): (k: int)
    requires n <= |s|
    ensures -1 <= k < n
    ensures k >= 0 ==> s[k] == '/'
    decreases n
  {
    if n == 0 then -1 else if s[n - 1] == '/' then n - 1 else LastSlashBefore(s, n - 1)
  }

  /** The match after the literal folder prefix: `(?:/(.*?))?/([^/]+)$`. The optional group
   *  is tried first; its lazy `.*?` can only stop before the last "/", and `.` does not
   *  cross a line terminator. Without the group, the rest must be "/" and one name. */
  function MatchRest(rest: string): Option<Groups> {
    if |rest| == 0 || rest[0] != '/' then None
    else
      var k := LastSlash(rest);
      if k == |rest| - 1 then None
      else if k > 0 && NoLineTerminator(rest[1..k]) then Some(Groups(Some(rest[1..k]), rest[k + 1..]))
      else if k == 0 then Some(Groups(None, rest[1..]))
      else None
  }

  /** `file.match(regex)`: the literal folder prefix, then the rest of the pattern. */
  function MatchFile(re: FileRegex, file: string): Option<Groups>
    requires LiteralOf(re.escapedFolder).Some?
  {
    var folder := LiteralOf(re.escapedFolder).value;
    if folder <= file then MatchRest(file[|folder|..]) else None
  }

  /** "/" before the sub-path when the group took part, nothing when it did not. */
  function Separated(sub: Option<string>): string {
    match sub case None => "" case Some(s) => "/" + s
  }

  /** The shape a matched file has: the folder, the optional "/" and sub-path, then "/" and a
   *  plain name. */
  predicate MatchesShape(folderPath: string, file: string, g: Groups) {
    PlainName(g.name) && (g.sub.Some? ==> NoLineTerminator(g.sub.value))
    && file == folderPath + Separated(g.sub) + "/" + g.name
  }

  lemma LastSlashBeforeName(s: string, t: string)
    requires '/' !in t
    ensures LastSlash(s + "/" + t) == |s|
  {
    var x := s + "/" + t;
    forall j | |s| < j < |x| ensures x[j] != '/' {
      assert x[j] == t[j - |s| - 1];
    }
    SlashAt(x, |s|, |x|);
  }

  /** A "/" at `m` with none after it before `n` is the last one before `n`. */
  lemma {:induction false} SlashAt(x: string, m: nat, n: nat)
    requires m < n <= |x| && x[m] == '/'
    requires forall j :: m < j < n ==> x[j] != '/'
    ensures LastSlashBefore(x, n) == m
    decreases n
  {
    if n - 1 > m {
      SlashAt(x, m, n - 1);
    }
  }

  /** The part of the pattern after the folder prefix succeeds with groups `g` exactly
   *  when the rest has the shape "/" [sub "/"] name. */
  lemma MatchRestIff(rest: string, g: Groups)
    ensures MatchRest(rest) == Some(g)
        <==> PlainName(g.name) && (g.sub.Some? ==> NoLineTerminator(g.sub.value))
             && rest == Separated(g.sub) + "/" + g.name
  {
    if MatchRest(rest) == Some(g) {
      MatchRestShape(rest);
    }
    if PlainName(g.name) && (g.sub.Some? ==> NoLineTerminator(g.sub.value)) && rest == Separated(g.sub) + "/" + g.name {
      ShapeMatchesRest(g);
    }
  }

  lemma MatchRestShape(rest: string)
    requires MatchRest(rest).Some?
    ensures var g := MatchRest(rest).value;
            PlainName(g.name) && (g.sub.Some? ==> NoLineTerminator(g.sub.value))
            && rest == Separated(g.sub) + "/" + g.name
  {
    var k := LastSlash(rest);
    NoSlashAfterLast(rest);
    SplitAtSlashes(rest, k);
  }

  /** No "/" follows the one LastSlash finds. */
  lemma NoSlashAfterLast(s: string)
    ensures '/' !in s[LastSlash(s) + 1..]
  {
    var k := LastSlash(s);
    forall j | k < j < |s| ensures s[j] != '/' {
      NoSlashBetween(s, |s|, j);
    }
    NoSlashFrom(s, k + 1);
  }

  lemma {:induction false} NoSlashBetween(s: string, n: nat, j: int)
    requires n <= |s| && LastSlashBefore(s, n) < j < n
    ensures s[j] != '/'
    decreases n
  {
    if j < n - 1 {
      NoSlashBetween(s, n - 1, j);
    }
  }

  lemma NoSlashFrom(s: string, m: nat)
    requires m <= |s|
    requires forall j :: m <= j < |s| ==> s[j] != '/'
    ensures '/' !in s[m..]
  {
  }

  lemma SplitAtSlashes(rest: string, k: nat)
    requires 0 <= k < |rest| && rest[0] == '/' && rest[k] == '/'
    ensures k > 0 ==> rest == "/" + rest[1..k] + "/" + rest[k + 1..]
    ensures k == 0 ==> rest == "/" + rest[1..]
  {
    if k > 0 {
      assert rest == rest[..1] + rest[1..k] + rest[k..k + 1] + rest[k + 1..];
    } else {
      assert rest == rest[..1] + rest[1..];
    }
  }

  lemma ShapeMatchesRest(g: Groups)
    requires PlainName(g.name) && (g.sub.Some? ==> NoLineTerminator(g.sub.value))
    ensures MatchRest(Separated(g.sub) + "/" + g.name) == Some(g)
  {
    var sep := Separated(g.sub);
    var rest := sep + "/" + g.name;
    LastSlashBeforeName(sep, g.name);
    assert rest[|sep| + 1..] == g.name;
    match g.sub
    case None =>
      assert rest[0] == '/';
    case Some(s) =>
      assert rest[0] == '/';
      assert rest[1..|sep|] == s;
  }

  /** The match succeeds with groups `g` exactly when the file has that shape. */
  lemma MatchIff(folderPath: string, file: string, g: Groups)
    ensures MatchFile(BuildRegex(folderPath), file) == Some(g) <==> MatchesShape(folderPath, file, g)
  {
    if MatchFile(BuildRegex(folderPath), file) == Some(g) {
      MatchedHasShape(folderPath, file, g);
    }
    if MatchesShape(folderPath, file, g) {
      ShapeIsMatched(folderPath, file, g);
    }
  }

  lemma MatchedHasShape(folderPath: string, file: string, g: Groups)
    requires MatchFile(BuildRegex(folderPath), file) == Some(g)
    ensures MatchesShape(folderPath, file, g)
  {
    var re := BuildRegex(folderPath);
    assert folderPath <= file && MatchRest(file[|folderPath|..]) == Some(g);
    MatchRestShape(file[|folderPath|..]);
    PrefixJoin(folderPath, file, Separated(g.sub), g.name);
  }

  lemma PrefixJoin(folderPath: string, file: string, a: string, n: string)
    requires folderPath <= file && file[|folderPath|..] == a + "/" + n
    ensures file == folderPath + a + "/" + n
  {
    assert file == folderPath + file[|folderPath|..];
  }

  lemma ShapeIsMatched(folderPath: string, file: string, g: Groups)
    requires MatchesShape(folderPath, file, g)
    ensures MatchFile(BuildRegex(folderPath), file) == Some(g)
  {
    var rest := Separated(g.sub) + "/" + g.name;
    assert file == folderPath + rest;
    assert folderPath <= file && file[|folderPath|..] == rest;
    ShapeMatchesRest(g);
  }

  // ---------------------------------------------------------------------------------
  // The listed paths and the match

  /** Names a real directory listing can hold; directory names, which end up inside the
   *  lazy group, also hold no line terminator. */
  predicate ValidNames(items: seq<Entry>)
    decreases items
  {
    forall i :: 0 <= i < |items| ==>
      PlainName(items[i].name) &&
      (items[i].Dir? ==> NoLineTerminator(items[i].name) && ValidNames(items[i].entries))
  }

  /** A name sequence as the walk produces it from valid names. */
  predicate ValidPath(p: seq<string>) {
    |p| > 0 &&
    (forall k :: 0 <= k < |p| ==> PlainName(p[k])) &&
    (forall k :: 0 <= k < |p| - 1 ==> NoLineTerminator(p[k]))
  }

  lemma {:induction false} FilePathsValid(items: seq<Entry>)
    requires ValidNames(items)
    ensures forall i :: 0 <= i < |FilePaths(items)| ==> ValidPath(FilePaths(items)[i])
    decreases items
  {
    if items != [] {
      assert ValidNames(items[1..]) by {
        assert forall i :: 0 <= i < |items[1..]| ==> items[1..][i] == items[i + 1];
      }
      FilePathsValid(items[1..]);
      match items[0]
      case File(n, _) =>
      case Dir(n, es) =>
        FilePathsValid(es);
        forall i | 0 <= i < |FilePaths(es)| ensures ValidPath([n] + FilePaths(es)[i]) {
          var p := FilePaths(es)[i];
          assert forall k :: 1 <= k < |[n] + p| ==> ([n] + p)[k] == p[k - 1];
        }
    }
  }

  /** The groups the pattern yields for a name sequence: the sub-path is the directory
   *  names joined by "/" (absent for a top-level file), the name is the last one. */
  function SplitNames(p: seq<string>): Groups
    requires |p| > 0
  {
    Groups(if |p| == 1 then None else Some(JoinSub(p[..|p| - 1])), p[|p| - 1])
  }

  lemma {:induction false} JoinSubSnoc(init: seq<string>, last: string)
    requires |init| > 0
    ensures JoinSub(init + [last]) == JoinSub(init) + "/" + last
  {
    if |init| == 1 {
      assert (init + [last])[1..] == [last];
    } else {
      assert (init + [last])[1..] == init[1..] + [last];
      JoinSubSnoc(init[1..], last);
    }
  }

  lemma JoinSubLast(p: seq<string>)
    requires |p| > 1
    ensures JoinSub(p) == JoinSub(p[..|p| - 1]) + "/" + p[|p| - 1]
  {
    var init := p[..|p| - 1];
    assert p == init + [p[|p| - 1]];
    JoinSubSnoc(init, p[|p| - 1]);
  }

  lemma {:induction false} JoinPathIsSlashJoinSub(p: seq<string>)
    requires |p| > 0
    ensures JoinPath(p) == "/" + JoinSub(p)
  {
    if |p| > 1 {
      JoinPathIsSlashJoinSub(p[1..]);
    } else {
      assert p[1..] == [];
    }
  }

  lemma {:induction false} JoinSubNoLineTerminator(p: seq<string>)
    requires forall k :: 0 <= k < |p| ==> NoLineTerminator(p[k])
    ensures NoLineTerminator(JoinSub(p))
  {
    if |p| > 1 {
      JoinSubNoLineTerminator(p[1..]);
      var j := JoinSub(p[1..]);
      assert JoinSub(p) == p[0] + "/" + j;
      forall k | 0 <= k < |JoinSub(p)| ensures !IsLineTerminator(JoinSub(p)[k]) {
        if k < |p[0]| {
          assert JoinSub(p)[k] == p[0][k];
        } else if k > |p[0]| {
          assert JoinSub(p)[k] == j[k - |p[0]| - 1];
        }
      }
    }
  }

  /** The path of a valid name sequence has the shape the pattern matches. */
  lemma PathShape(folderPath: string, p: seq<string>)
    requires ValidPath(p)
    ensures MatchesShape(folderPath, folderPath + JoinPath(p), SplitNames(p))
  {
    if |p| == 1 {
      SingleNameShape(folderPath, p);
    } else {
      NestedNamesShape(folderPath, p);
    }
  }

  lemma SingleNameShape(folderPath: string, p: seq<string>)
    requires ValidPath(p) && |p| == 1
    ensures MatchesShape(folderPath, folderPath + JoinPath(p), SplitNames(p))
  {
    var name := p[0];
    assert PlainName(name);
    assert p[1..] == [];
    assert JoinPath(p) == "/" + name;
    assert SplitNames(p) == Groups(None, name);
    assert folderPath + Separated(None) + "/" + name == folderPath + ("/" + name);
  }

  lemma NestedNamesShape(folderPath: string, p: seq<string>)
    requires ValidPath(p) && |p| > 1
    ensures MatchesShape(folderPath, folderPath + JoinPath(p), SplitNames(p))
  {
    var sub, name := JoinSub(p[..|p| - 1]), p[|p| - 1];
    InitNoLineTerminator(p);
    JoinPathLast(p);
    assert PlainName(name);
    assert SplitNames(p) == Groups(Some(sub), name);
    NestedText(folderPath, sub, name);
  }

  lemma InitNoLineTerminator(p: seq<string>)
    requires ValidPath(p) && |p| > 1
    ensures NoLineTerminator(JoinSub(p[..|p| - 1]))
  {
    var init := p[..|p| - 1];
    forall k | 0 <= k < |init| ensures NoLineTerminator(init[k]) {
      assert init[k] == p[k];
    }
    JoinSubNoLineTerminator(init);
  }

  lemma JoinPathLast(p: seq<string>)
    requires |p| > 1
    ensures JoinPath(p) == "/" + JoinSub(p[..|p| - 1]) + "/" + p[|p| - 1]
  {
    JoinPathIsSlashJoinSub(p);
    JoinSubLast(p);
  }

  /** For every listed path the match succeeds; its groups are the directory names joined
   *  by "/" and the file's own name. */
  lemma ListedPathsMatch(folderPath: string, items: seq<Entry>, i: nat)
    requires ValidNames(items)
    requires i < |ListAllFiles(folderPath, items)|
    ensures |FilePaths(items)| == |ListAllFiles(folderPath, items)| && |FilePaths(items)[i]| > 0
    ensures MatchFile(BuildRegex(folderPath), ListAllFiles(folderPath, items)[i]) == Some(SplitNames(FilePaths(items)[i]))
  {
    WalkShape(folderPath, items);
    FilePathsValid(items);
    var p := FilePaths(items)[i];
    PathShape(folderPath, p);
    MatchIff(folderPath, folderPath + JoinPath(p), SplitNames(p));
  }

  // ---------------------------------------------------------------------------------
  // URL derivation

  /** `s.split(".")[0]`: the part of `s` before its first dot. */
  function BeforeFirstDot(s: string): (r: string)
    ensures r <= s && '.' !in r
    ensures |r| < |s| ==> s[|r|] == '.'
  {
    if s == [] || s[0] == '.' then [] else [s[0]] + BeforeFirstDot(s[1..])
  }

  /** `endUrl`: nothing for exactly "index.html", else "/" and the name before its first dot. */
  function EndUrl(fileName: string): string {
    if fileName == "index.html" then "" else "/" + BeforeFirstDot(fileName)
  }

  /** The route routeFolder derives for `file`, or None where the match fails and
   *  `match[1]` throws. */
  function PageRoute(rootUrl: string, folderPath: string, file: string): Option<string> {
    match MatchFile(BuildRegex(folderPath), file)
    case None => None
    case Some(g) => Some(rootUrl + g.sub.GetOr("") + EndUrl(g.name))
  }

  /** The route of each listed file: the root URL, directly followed (no separator) by the
   *  directory names joined by "/", then nothing for an index.html and otherwise "/" and
   *  the file name cut at its first dot. */
  lemma ListedRoute(rootUrl: string, folderPath: string, items: seq<Entry>, i: nat)
    requires ValidNames(items)
    requires i < |ListAllFiles(folderPath, items)|
    ensures |FilePaths(items)| == |ListAllFiles(folderPath, items)| && |FilePaths(items)[i]| > 0
    ensures var p := FilePaths(items)[i];
            var dirs, name := JoinSub(p[..|p| - 1]), p[|p| - 1];
            PageRoute(rootUrl, folderPath, ListAllFiles(folderPath, items)[i])
              == Some(if name == "index.html" then rootUrl + dirs
                      else rootUrl + dirs + "/" + BeforeFirstDot(name))
  {
    ListedPathsMatch(folderPath, items, i);
    var p := FilePaths(items)[i];
    var file := ListAllFiles(folderPath, items)[i];
    MatchIff(folderPath, file, SplitNames(p));
    RouteOfShape(rootUrl, folderPath, file, SplitNames(p));
    var dirs, name := JoinSub(p[..|p| - 1]), p[|p| - 1];
    if |p| == 1 {
      assert p[..0] == [];
      assert dirs == "" && SplitNames(p).sub.GetOr("") == "";
    }
    assert SplitNames(p).sub.GetOr("") == dirs && SplitNames(p).name == name;
    if name == "index.html" {
      assert rootUrl + dirs + "" == rootUrl + dirs;
    } else {
      assert rootUrl + dirs + ("/" + BeforeFirstDot(name)) == rootUrl + dirs + "/" + BeforeFirstDot(name);
    }
  }

  lemma BeforeFirstDotOf(stem: string, ext: string)
    requires '.' !in stem
    ensures BeforeFirstDot(stem + "." + ext) == stem
  {
    var r := BeforeFirstDot(stem + "." + ext);
    var x := stem + "." + ext;
    assert forall j :: 0 <= j < |stem| ==> x[j] == stem[j];
    assert x[|stem|] == '.';
    assert r == x[..|r|];
    assert x[..|stem|] == stem;
  }

  /** The route of a file of the matched shape: the root URL, the sub-path (or nothing),
   *  then the end derived from the file name. */
  lemma RouteOfShape(rootUrl: string, folderPath: string, file: string, g: Groups)
    requires MatchesShape(folderPath, file, g)
    ensures PageRoute(rootUrl, folderPath, file) == Some(rootUrl + g.sub.GetOr("") + EndUrl(g.name))
  {
    ShapeIsMatched(folderPath, file, g);
  }

  /** The top-level index.html is served at the root URL itself. */
  lemma TopIndexRoute(rootUrl: string, folderPath: string)
    ensures PageRoute(rootUrl, folderPath, folderPath + "/index.html") == Some(rootUrl)
  {
    IndexFile(folderPath);
    TopShape(folderPath, "index.html");
    RouteOfShape(rootUrl, folderPath, folderPath + "/" + "index.html", Groups(None, "index.html"));
    IndexRouteText(rootUrl, "");
  }

  /** An index.html one folder down is served at the root URL directly followed by the
   *  folder's name. */
  lemma NestedIndexRoute(rootUrl: string, folderPath: string, dir: string)
    requires PlainName(dir) && NoLineTerminator(dir)
    ensures PageRoute(rootUrl, folderPath, folderPath + "/" + dir + "/index.html") == Some(rootUrl + dir)
  {
    IndexFile(folderPath + "/" + dir);
    NestedShape(folderPath, dir, "index.html");
    RouteOfShape(rootUrl, folderPath, folderPath + "/" + dir + "/" + "index.html", Groups(Some(dir), "index.html"));
    IndexRouteText(rootUrl, dir);
  }

  /** The shape of a file directly in the folder. */
  lemma TopShape(folderPath: string, name: string)
    requires PlainName(name)
    ensures MatchesShape(folderPath, folderPath + "/" + name, Groups(None, name))
  {
    assert folderPath + "/" + name == folderPath + Separated(None) + "/" + name;
  }

  lemma NestedShape(folderPath: string, dir: string, name: string)
    requires PlainName(dir) && NoLineTerminator(dir) && PlainName(name)
    ensures MatchesShape(folderPath, folderPath + "/" + dir + "/" + name, Groups(Some(dir), name))
  {
    assert folderPath + "/" + dir + "/" + name == folderPath + Separated(Some(dir)) + "/" + name;
  }

  /** Any other page one folder down: the root URL, the folder's name, "/" and the file
   *  name before its first dot. */
  lemma NestedPageRoute(rootUrl: string, folderPath: string, dir: string, name: string)
    requires PlainName(dir) && NoLineTerminator(dir)
    requires PlainName(name) && name != "index.html"
    ensures PageRoute(rootUrl, folderPath, folderPath + "/" + dir + "/" + name)
            == Some(rootUrl + dir + "/" + BeforeFirstDot(name))
  {
    NestedShape(folderPath, dir, name);
    RouteOfShape(rootUrl, folderPath, folderPath + "/" + dir + "/" + name, Groups(Some(dir), name));
    var end := EndUrl(name);
    assert end == "/" + BeforeFirstDot(name);
    assert rootUrl + dir + end == rootUrl + dir + "/" + BeforeFirstDot(name);
  }

  /** A top-level page other than index.html: the root URL, then "/" and the file name
   *  before its first dot; with root URL "/" the route starts with a doubled slash. */
  lemma TopPageRoute(rootUrl: string, folderPath: string, name: string)
    requires PlainName(name) && name != "index.html"
    ensures PageRoute(rootUrl, folderPath, folderPath + "/" + name)
            == Some(rootUrl + "/" + BeforeFirstDot(name))
  {
    TopShape(folderPath, name);
    RouteOfShape(rootUrl, folderPath, folderPath + "/" + name, Groups(None, name));
    TopRouteText(rootUrl, name);
  }

  /** With root URL "/", a top-level about.html is served at "//about", not "/about". */
  lemma AboutPageRoute(folderPath: string, file: string)
    requires file == folderPath + "/about.html"
    ensures PageRoute("/", folderPath, file) == Some("//about")
  {
    AboutName(folderPath, file);
    TopPageRoute("/", folderPath, "about.html");
    AboutStem();
  }

  // ---------------------------------------------------------------------------------
  // String identities
  //
  // Each of these states one step of string arithmetic (associativity, a literal spelled
  // out, an empty part dropped) on its own, and none is a property of the source. They are
  // separate lemmas only so that the proofs of the route lemmas above do this arithmetic
  // outside the context of the match, where it becomes expensive for the solver.

  lemma NestedText(folderPath: string, sub: string, name: string)
    ensures folderPath + ("/" + sub + "/" + name) == folderPath + Separated(Some(sub)) + "/" + name
  {
  }

  lemma IndexFile(dirPath: string)
    ensures dirPath + "/" + "index.html" == dirPath + "/index.html"
    ensures PlainName("index.html")
  {
  }

  lemma IndexRouteText(rootUrl: string, sub: string)
    ensures rootUrl + sub + EndUrl("index.html") == rootUrl + sub
    ensures rootUrl + "" == rootUrl
  {
    assert EndUrl("index.html") == "";
  }

  lemma TopRouteText(rootUrl: string, name: string)
    requires name != "index.html"
    ensures rootUrl + None.GetOr("") + EndUrl(name) == rootUrl + "/" + BeforeFirstDot(name)
  {
    assert EndUrl(name) == "/" + BeforeFirstDot(name);
    EmptyThenJoined(rootUrl, "/", BeforeFirstDot(name));
  }

  lemma EmptyThenJoined(a: string, b: string, c: string)
    ensures a + "" + (b + c) == a + b + c
  {
  }

  lemma AboutName(folderPath: string, file: string)
    requires file == folderPath + "/about.html"
    ensures file == folderPath + "/" + "about.html"
    ensures PlainName("about.html") && "about.html" != "index.html"
  {
    assert "about.html"[0] != "index.html"[0];
  }

  lemma AboutStem()
    ensures BeforeFirstDot("about.html") == "about"
    ensures "/" + "/" + BeforeFirstDot("about.html") == "//about"
  {
    BeforeFirstDotOf("about", "html");
    assert "about" + "." + "html" == "about.html";
    DoubledSlash();
  }

  lemma DoubledSlash()
    ensures "/" + "/" + "about" == "//about"
  {
  }

  // ---------------------------------------------------------------------------------
  // routeFolder

  /** A registered page: the file it comes from, its route, its content read at setup. */
  datatype Page = Page(file: string, route: string, content: string)

  /** The pages routeFolder registers for `files`, in order; it stops at the first file the
   *  match fails on, where the source throws. */
  function Pages(rootUrl: string, folderPath: string, files: seq<string>, contents: seq<string>): (ps: seq<Page>)
    requires |files| == |contents|
    ensures |ps| <= |files|
  {
    if files == [] then []
    else
      match PageRoute(rootUrl, folderPath, files[0])
      case None => []
      case Some(route) => [Page(files[0], route, contents[0])] + Pages(rootUrl, folderPath, files[1..], contents[1..])
  }

  /** The route listener of a page: GET, its route, a handler sending 200 and the content. */
  function PageListener(p: Page): Listener {
    Route(Get, p.route, Handler(p.file, Some(Reply(200, p.content))))
  }

  /** The route listeners of the pages, in order. */
  function PageListeners(ps: seq<Page>): (ls: seq<Listener>)
    ensures |ls| == |ps|
  {
    if ps == [] then [] else PageListeners(ps[..|ps| - 1]) + [PageListener(ps[|ps| - 1])]
  }

  /** The routes of the pages, in order. */
  function PageUrls(ps: seq<Page>): (urls: seq<string>)
    ensures |urls| == |ps|
  {
    if ps == [] then [] else PageUrls(ps[..|ps| - 1]) + [ps[|ps| - 1].route]
  }

  /** One listener and one handled URL per page, at the page's position. */
  lemma {:induction false} PageListenersAt(ps: seq<Page>, k: nat)
    requires k < |ps|
    ensures |PageListeners(ps)| == |PageUrls(ps)| == |ps|
    ensures PageListeners(ps)[k] == PageListener(ps[k]) && PageUrls(ps)[k] == ps[k].route
    decreases |ps|
  {
    var init := ps[..|ps| - 1];
    if k < |init| {
      PageListenersAt(init, k);
    } else if init != [] {
      PageListenersAt(init, 0);
    }
  }

  /** Page `i` is file `i` with its route and content, and the pages stop exactly at the
   *  first file whose route fails. */
  lemma {:induction false} PagesStep(rootUrl: string, folderPath: string, files: seq<string>, contents: seq<string>, i: nat)
    requires |files| == |contents| && i < |files|
    requires i <= |Pages(rootUrl, folderPath, files, contents)|
    ensures var ps := Pages(rootUrl, folderPath, files, contents);
            match PageRoute(rootUrl, folderPath, files[i])
            case None => i == |ps|
            case Some(route) => i < |ps| && ps[i] == Page(files[i], route, contents[i])
    decreases i
  {
    var ps := Pages(rootUrl, folderPath, files, contents);
    if i > 0 {
      var first := PageRoute(rootUrl, folderPath, files[0]);
      assert first.Some?;
      var rest := Pages(rootUrl, folderPath, files[1..], contents[1..]);
      assert ps == [Page(files[0], first.value, contents[0])] + rest;
      PagesStep(rootUrl, folderPath, files[1..], contents[1..], i - 1);
      assert files[1..][i - 1] == files[i] && contents[1..][i - 1] == contents[i];
      if i < |ps| {
        assert ps[i] == rest[i - 1];
      }
    }
  }

  lemma PageListenersSnoc(ps: seq<Page>, i: nat)
    requires i < |ps|
    ensures PageListeners(ps[..i + 1]) == PageListeners(ps[..i]) + [PageListener(ps[i])]
    ensures PageUrls(ps[..i + 1]) == PageUrls(ps[..i]) + [ps[i].route]
  {
    assert ps[..i + 1][..i] == ps[..i];
  }

  /** The route of the next file, and what it means for the pages routeFolder registers:
   *  the next page's route, or the end of the pages where the match fails. */
  method NextRoute(rootUrl: string, folderPath: string, files: seq<string>, contents: seq<string>, i: nat)
      returns (route: Option<string>)
    requires |files| == |contents| && i < |files|
    requires i <= |Pages(rootUrl, folderPath, files, contents)|
    ensures var ps := Pages(rootUrl, folderPath, files, contents);
            match route
            case None => i == |ps|
            case Some(r) => i < |ps| && ps[i] == Page(files[i], r, contents[i])
  {
    route := PageRoute(rootUrl, folderPath, files[i]);
    PagesStep(rootUrl, folderPath, files, contents, i);
  }

  /** One step of routeFolder: the route of page `i`, on top of those of the pages before it. */
  method AddPage(server: Dispatcher, page: Page, ghost ps: seq<Page>, ghost i: nat,
                 ghost listeners0: seq<Listener>, ghost urls0: seq<string>)
    requires i < |ps| && ps[i] == page
    requires server.Valid()
    requires server.listeners == listeners0 + PageListeners(ps[..i])
    requires server.handledUrls == urls0 + PageUrls(ps[..i])
    modifies server
    ensures server.Valid()
    ensures server.listeners == listeners0 + PageListeners(ps[..i + 1])
    ensures server.handledUrls == urls0 + PageUrls(ps[..i + 1])
  {
    server.AddRoute(Get, page.route, Handler(page.file, Some(Reply(200, page.content))));
    PageListenersSnoc(ps, i);
  }

  /** routeFolder: one addRoute("get", …) per listed file, in listing order, with the
   *  file's content as read at setup. `completed` is false where a match failed and the
   *  source throws; the routes registered before that stay registered. */
  method RouteFolder(server: Dispatcher, rootUrl: string, folderPath: string, items: seq<Entry>)
      returns (completed: bool)
    requires server.Valid()
    modifies server
    ensures server.Valid()
    ensures |ListAllFiles(folderPath, items)| == |FileContents(items)|
    ensures var ps := Pages(rootUrl, folderPath, ListAllFiles(folderPath, items), FileContents(items));
            && completed == (|ps| == |ListAllFiles(folderPath, items)|)
            && server.listeners == old(server.listeners) + PageListeners(ps)
            && server.handledUrls == old(server.handledUrls) + PageUrls(ps)
  {
    var allFiles := ListAllFiles(folderPath, items);
    var contents := FileContents(items);
    WalkLengths(folderPath, items);
    ghost var ps := Pages(rootUrl, folderPath, allFiles, contents);
    ghost var listeners0, urls0 := server.listeners, server.handledUrls;
    var i := 0;
    while i < |allFiles|
      invariant 0 <= i <= |ps|
      invariant server.Valid()
      invariant server.listeners == listeners0 + PageListeners(ps[..i])
      invariant server.handledUrls == urls0 + PageUrls(ps[..i])
    {
      var route := NextRoute(rootUrl, folderPath, allFiles, contents, i);
      if route.None? {
        assert ps[..i] == ps;
        return false;
      }
      AddPage(server, Page(allFiles[i], route.value, contents[i]), ps, i, listeners0, urls0);
      i := i + 1;
    }
    assert ps[..i] == ps;
    return true;
  }

  /** A folder of valid names is routed completely, one page per file. */
  lemma ValidFolderRoutesEveryFile(rootUrl: string, folderPath: string, items: seq<Entry>)
    requires ValidNames(items)
    ensures |ListAllFiles(folderPath, items)| == |FileContents(items)|
    ensures |Pages(rootUrl, folderPath, ListAllFiles(folderPath, items), FileContents(items))| == FileCount(items)
  {
    WalkShape(folderPath, items);
    var files := ListAllFiles(folderPath, items);
    var ps := Pages(rootUrl, folderPath, files, FileContents(items));
    if |ps| < |files| {
      ListedRoute(rootUrl, folderPath, items, |ps|);
      PagesStep(rootUrl, folderPath, files, FileContents(items), |ps|);
    }
  }

  /** A registered page is served on every GET of its route with status 200 and the
   *  content read at setup, at its place in the chain. */
  lemma PageServed(before: seq<Listener>, ps: seq<Page>, k: nat, handled: seq<string>, raw: IncomingRequest)
    requires k < |ps|
    requires MapRequest(raw).Some?
    requires MapRequest(raw).value.verb == Get && MapRequest(raw).value.url == ps[k].route
    ensures var ls, j := before + PageListeners(ps), |before| + k;
            Trace(ls, handled, raw)
              == Trace(ls[..j], handled, raw)
                 + [Call(ps[k].file, MapRequest(raw).value), Send(200, ps[k].content)]
                 + Trace(ls[j + 1..], handled, raw)
  {
    var ls, j := before + PageListeners(ps), |before| + k;
    var req := MapRequest(raw).value;
    PageListenersAt(ps, k);
    assert ls[j] == Route(Get, ps[k].route, Handler(ps[k].file, Some(Reply(200, ps[k].content))));
    RouteRunsOnMatch(ls, j, handled, raw, req);
    assert Run(ls[j].handler, req) == [Call(ps[k].file, req), Send(200, ps[k].content)];
  }
}

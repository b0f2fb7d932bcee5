/** `create_database` (setup_db.py): the database name taken from
    `DATABASE_URL` by the pattern
    `postgresql://[^:]+:[^@]+@[^:]+(?::\d+)?/([^?]+)` under `re.match`, and
    the connection string for the maintenance database `postgres`.

The pattern is matched by hand. `re.match` anchors at the start only and
backtracks with greedy quantifiers: the user runs to the first ':', the
password to the next '@', and the host is the longest run without ':' that
the rest of the pattern accepts, trying the port first. `Decomposes` is the
pattern read as a grammar; `FindCuts` is the matcher, proved sound and
complete against it, with the longest host among all decompositions.
 */
module SetupDb {
  import opened Wrappers
  import opened Strings

  const Scheme := "postgresql://"
  const InvalidUrlText := "Invalid DATABASE_URL format"
  const MaintenanceDb := "postgres"

  /** The parts of a matching URL; `dbName` is group 1. */
  datatype UrlMatch = UrlMatch(user: string, password: string, host: string, port: Option<string>, dbName: string)

  predicate Lacks(s: string, c: char) {
    forall k :: 0 <= k < |s| ==> s[k] != c
  }

  predicate AllDigits(s: string) {
    forall k :: 0 <= k < |s| ==> IsDigit(s[k])
  }

  /** What each group of the pattern admits. */
  predicate WellFormed(m: UrlMatch) {
    && |m.user| > 0 && Lacks(m.user, ':')
    && |m.password| > 0 && Lacks(m.password, '@')
    && |m.host| > 0 && Lacks(m.host, ':')
    && (m.port.Some? ==> |m.port.value| > 0 && AllDigits(m.port.value))
    && |m.dbName| > 0 && Lacks(m.dbName, '?')
  }

  function PortText(port: Option<string>): string {
    if port.Some? then ":" + port.value else ""
  }

  /** The matched text. */
  function Render(m: UrlMatch): string {
    Scheme + m.user + ":" + m.password + "@" + m.host + PortText(m.port) + "/" + m.dbName
  }

  /** `url` matches the pattern with these groups, group 1 taken greedily: the
      match is a prefix and what follows it, if anything, starts with '?'. */
  predicate Decomposes(url: string, m: UrlMatch) {
    && WellFormed(m)
    && StartsWith(url, Render(m))
    && (|url| == |Render(m)| || url[|Render(m)|] == '?')
  }

  /** Where the groups end: the ':' after the user, the '@' after the
      password, the end of the host, the end of the port (the host's end when
      there is none, else the '/'), and the end of the database name. */
  datatype Cuts = Cuts(colon: nat, at: nat, hostEnd: nat, portEnd: nat, end: nat)

  predicate NoneIn(s: string, c: char, lo: nat, hi: nat)
    requires lo <= hi <= |s|
  {
    forall k :: lo <= k < hi ==> s[k] != c
  }

  predicate DigitsIn(s: string, lo: nat, hi: nat)
    requires lo <= hi <= |s|
  {
    forall k :: lo <= k < hi ==> IsDigit(s[k])
  }

  /** The user runs from the scheme to the first ':', the password from
      there to the next '@'. */
  predicate UserOk(url: string, colon: nat, at: nat) {
    && StartsWith(url, Scheme)
    && |Scheme| < colon && colon + 1 < at < |url|
    && url[colon] == ':' && NoneIn(url, ':', |Scheme|, colon)
    && url[at] == '@' && NoneIn(url, '@', colon + 1, at)
  }

  /** After the '@' at `at`: the host up to `hostEnd`, the optional port up
      to the '/' at `portEnd`, and the database name up to `end`. */
  predicate HostOk(url: string, at: nat, hostEnd: nat, portEnd: nat, end: nat) {
    && at + 1 < hostEnd <= portEnd && portEnd + 1 < end <= |url|
    && NoneIn(url, ':', at + 1, hostEnd)
    && (portEnd > hostEnd ==> url[hostEnd] == ':' && hostEnd + 1 < portEnd && DigitsIn(url, hostEnd + 1, portEnd))
    && url[portEnd] == '/'
    && NoneIn(url, '?', portEnd + 1, end)
    && (end == |url| || url[end] == '?')
  }

  predicate CutsOk(url: string, x: Cuts) {
    UserOk(url, x.colon, x.at) && HostOk(url, x.at, x.hostEnd, x.portEnd, x.end)
  }

  function MatchOf(url: string, x: Cuts): UrlMatch
    requires CutsOk(url, x)
  {
    UrlMatch(url[|Scheme|..x.colon], url[x.colon + 1..x.at], url[x.at + 1..x.hostEnd],
             if x.portEnd > x.hostEnd then Some(url[x.hostEnd + 1..x.portEnd]) else None,
             url[x.portEnd + 1..x.end])
  }

  /** A '/' that can end the host: a non-'?' character follows it. */
  predicate Qualifies(url: string, h: nat) {
    h + 1 < |url| && url[h] == '/' && url[h + 1] != '?'
  }

  /** The last qualifying '/' in `[lo, hi)`. */
  function LastSlash(url: string, lo: nat, hi: nat): (r: Option<nat>)
    requires hi <= |url|
    ensures r.Some? ==> lo <= r.value < hi && Qualifies(url, r.value)
                        && forall h :: r.value < h < hi ==> !Qualifies(url, h)
    ensures r.None? ==> forall h :: lo <= h < hi ==> !Qualifies(url, h)
    decreases hi
  {
    if hi <= lo then None
    else if Qualifies(url, hi - 1) then Some(hi - 1)
    else LastSlash(url, lo, hi - 1)
  }

  /** The end of the run of digits starting at `from`. */
  function DigitsEnd(url: string, from: nat): (r: nat)
    requires from <= |url|
    ensures from <= r <= |url| && DigitsIn(url, from, r)
    ensures r == |url| || !IsDigit(url[r])
    decreases |url| - from
  {
    if from == |url| || !IsDigit(url[from]) then from else DigitsEnd(url, from + 1)
  }

  /** The port alternative at the first ':' after the host start `e`. */
  function PortCuts(url: string, at: nat, e: nat): (r: Option<(nat, nat)>)
    requires e <= |url|
    ensures r.Some? ==> && e < |url| && at + 2 <= e && url[e] == ':'
                        && e + 1 < r.value.0 < |url| && DigitsIn(url, e + 1, r.value.0) && Qualifies(url, r.value.0)
                        && r.value.0 + 1 < r.value.1 <= |url| && NoneIn(url, '?', r.value.0 + 1, r.value.1)
                        && (r.value.1 == |url| || url[r.value.1] == '?')
  {
    if e < |url| && at + 2 <= e && url[e] == ':' then
      var k := DigitsEnd(url, e + 1);
      if k > e + 1 && Qualifies(url, k) then Some((k, IndexOf(url, '?', k + 1))) else None
    else None
  }

  /** The user and password stage of the matcher. */
  function UserCuts(url: string): (r: Option<(nat, nat)>)
    ensures r.Some? ==> UserOk(url, r.value.0, r.value.1)
  {
    if !StartsWith(url, Scheme) then None
    else
      var c := IndexOf(url, ':', |Scheme|);
      if c == |url| || c == |Scheme| then None
      else
        var a := IndexOf(url, '@', c + 1);
        if a == |url| || a == c + 1 then None
        else Some((c, a))
  }

  /** The host, port and database stage after the '@' at `at`: the port
      alternative at the first ':' if it matches, otherwise the host up to
      the last '/' that leaves a database name. */
  function HostCuts(url: string, at: nat): (r: Option<(nat, nat, nat)>)
    requires at < |url|
    ensures r.Some? ==> HostOk(url, at, r.value.0, r.value.1, r.value.2)
  {
    var e := IndexOf(url, ':', at + 1);
    match PortCuts(url, at, e)
    case Some((k, end)) => Some((e, k, end))
    case None =>
      match LastSlash(url, at + 2, e)
      case None => None
      case Some(h) => Some((h, h, IndexOf(url, '?', h + 1)))
  }

  /** The matcher. */
  function FindCuts(url: string): (r: Option<Cuts>)
    ensures r.Some? ==> CutsOk(url, r.value)
  {
    match UserCuts(url)
    case None => None
    case Some((c, a)) =>
      match HostCuts(url, a)
      case None => None
      case Some((h, p, end)) => Some(Cuts(c, a, h, p, end))
  }

  /** `re.match(pattern, url)` with its groups. */
  function MatchUrl(url: string): (r: Option<UrlMatch>)
    ensures r.Some? <==> FindCuts(url).Some?
  {
    match FindCuts(url)
    case None => None
    case Some(x) => Some(MatchOf(url, x))
  }

  /** The text the cuts delimit renders back from its groups. */
  lemma CutsRender(url: string, x: Cuts)
    requires CutsOk(url, x)
    ensures WellFormed(MatchOf(url, x))
    ensures Render(MatchOf(url, x)) == url[..x.end]
  {
    CutsWellFormed(url, x);
    CutsRenderText(url, x);
  }

  lemma CutsWellFormed(url: string, x: Cuts)
    requires CutsOk(url, x)
    ensures WellFormed(MatchOf(url, x))
  {
    var m := MatchOf(url, x);
    var c, a, h, p, e := x.colon, x.at, x.hostEnd, x.portEnd, x.end;
    LacksFromNoneIn(url, |Scheme|, c, ':');
    LacksFromNoneIn(url, c + 1, a, '@');
    LacksFromNoneIn(url, a + 1, h, ':');
    LacksFromNoneIn(url, p + 1, e, '?');
    if p > h {
      assert forall k :: 0 <= k < |m.port.value| ==> m.port.value[k] == url[h + 1 + k];
    }
  }

  lemma CutsRenderText(url: string, x: Cuts)
    requires CutsOk(url, x)
    ensures Render(MatchOf(url, x)) == url[..x.end]
  {
    var m := MatchOf(url, x);
    var h, p := x.hostEnd, x.portEnd;
    assert PortText(m.port) == url[h..p] by {
      if p > h {
        assert url[h..p] == [url[h]] + url[h + 1..p];
      }
    }
    JoinPieces(url, x.colon, x.at, h, p, x.end, m.user, m.password, m.host, PortText(m.port), m.dbName);
  }

  /** The rendered pieces, each read off `url` between its cuts, join up to
      the prefix of `url` they span. */
  lemma JoinPieces(url: string, c: nat, a: nat, h: nat, p: nat, e: nat,
                   user: string, password: string, host: string, portText: string, db: string)
    requires |Scheme| <= c && c + 1 <= a && a + 1 <= h <= p && p + 1 <= e <= |url|
    requires url[..|Scheme|] == Scheme && url[c] == ':' && url[a] == '@' && url[p] == '/'
    requires user == url[|Scheme|..c] && password == url[c + 1..a] && host == url[a + 1..h]
    requires portText == url[h..p] && db == url[p + 1..e]
    ensures Scheme + user + ":" + password + "@" + host + portText + "/" + db == url[..e]
  {
    assert Scheme == url[0..|Scheme|];
    assert ":" == url[c..c + 1] && "@" == url[a..a + 1] && "/" == url[p..p + 1];
    SliceJoin(url, 0, |Scheme|, c);
    var r1 := url[0..c];
    SliceJoin(url, 0, c, c + 1);
    var r2 := url[0..c + 1];
    assert r1 + ":" == r2;
    SliceJoin(url, 0, c + 1, a);
    var r3 := url[0..a];
    assert r2 + password == r3;
    SliceJoin(url, 0, a, a + 1);
    var r4 := url[0..a + 1];
    assert r3 + "@" == r4;
    SliceJoin(url, 0, a + 1, h);
    var r5 := url[0..h];
    assert r4 + host == r5;
    SliceJoin(url, 0, h, p);
    var r6 := url[0..p];
    assert r5 + portText == r6;
    SliceJoin(url, 0, p, p + 1);
    var r7 := url[0..p + 1];
    assert r6 + "/" == r7;
    SliceJoin(url, 0, p + 1, e);
    assert r7 + db == url[0..e];
  }

  lemma LacksFromNoneIn(url: string, lo: nat, hi: nat, c: char)
    requires lo <= hi <= |url| && NoneIn(url, c, lo, hi)
    ensures Lacks(url[lo..hi], c)
  {
  }

  /** Every match the matcher reports is a decomposition of the URL. */
  lemma MatchSound(url: string)
    requires MatchUrl(url).Some?
    ensures Decomposes(url, MatchUrl(url).value)
  {
    var x := FindCuts(url).value;
    CutsRender(url, x);
  }

  /** A piece of a prefix of `url`, read back from `url`. */
  lemma PieceAt(url: string, pre: string, piece: string)
    requires StartsWith(url, pre + piece)
    ensures StartsWith(url, pre)
    ensures url[|pre|..|pre| + |piece|] == piece
  {
    assert url[..|pre|] == (pre + piece)[..|pre|];
    assert url[|pre|..|pre| + |piece|] == (pre + piece)[|pre|..];
  }

  lemma LacksSlice(url: string, lo: nat, hi: nat, c: char)
    requires lo <= hi <= |url| && Lacks(url[lo..hi], c)
    ensures NoneIn(url, c, lo, hi)
  {
    forall k | lo <= k < hi
      ensures url[k] != c
    {
      assert url[k] == url[lo..hi][k - lo];
    }
  }

  lemma DigitsSlice(url: string, lo: nat, hi: nat)
    requires lo <= hi <= |url| && AllDigits(url[lo..hi])
    ensures DigitsIn(url, lo, hi)
  {
    forall k | lo <= k < hi
      ensures IsDigit(url[k])
    {
      assert url[k] == url[lo..hi][k - lo];
    }
  }

  /** The cuts a decomposition induces. */
  lemma DecompositionCuts(url: string, m: UrlMatch) returns (x: Cuts)
    requires Decomposes(url, m)
    ensures CutsOk(url, x) && MatchOf(url, x) == m
  {
    var r0 := Scheme + m.user;
    var r1 := r0 + ":";
    var r2 := r1 + m.password;
    var r3 := r2 + "@";
    var r4 := r3 + m.host;
    var r5 := r4 + PortText(m.port);
    var r6 := r5 + "/";
    assert Render(m) == r6 + m.dbName;
    PieceAt(url, r6, m.dbName);
    PieceAt(url, r5, "/");
    PieceAt(url, r4, PortText(m.port));
    PieceAt(url, r3, m.host);
    PieceAt(url, r2, "@");
    PieceAt(url, r1, m.password);
    PieceAt(url, r0, ":");
    PieceAt(url, Scheme, m.user);
    var c := |r0|;
    var a := |r2|;
    var h := |r4|;
    var p := |r5|;
    var e := |Render(m)|;
    assert url[c] == url[c..c + 1][0];
    assert url[a] == url[a..a + 1][0];
    assert url[p] == url[p..p + 1][0];
    LacksSlice(url, |Scheme|, c, ':');
    LacksSlice(url, c + 1, a, '@');
    LacksSlice(url, a + 1, h, ':');
    LacksSlice(url, p + 1, e, '?');
    if m.port.Some? {
      assert url[h..p] == ":" + m.port.value;
      assert url[h] == url[h..p][0];
      assert url[h + 1..p] == url[h..p][1..];
      DigitsSlice(url, h + 1, p);
    }
    x := Cuts(c, a, h, p, e);
  }

  /** The first `c` at or after `from` is at `i`. */
  lemma IndexOfAt(s: string, c: char, from: nat, i: nat)
    requires from <= i < |s| && s[i] == c && forall k :: from <= k < i ==> s[k] != c
    ensures IndexOf(s, c, from) == i
  {
  }

  /** The matcher finds the user and password of any cuts the URL admits,
      and a host ending no earlier. */
  lemma FindCutsComplete(url: string, y: Cuts)
    requires CutsOk(url, y)
    ensures FindCuts(url).Some?
    ensures FindCuts(url).value.colon == y.colon && FindCuts(url).value.at == y.at
    ensures FindCuts(url).value.hostEnd >= y.hostEnd
  {
    UserCutsComplete(url, y.colon, y.at);
    HostCutsComplete(url, y.at, y.hostEnd, y.portEnd, y.end);
  }

  /** The user stage finds the first ':' and the next '@'. */
  lemma UserCutsComplete(url: string, colon: nat, at: nat)
    requires UserOk(url, colon, at)
    ensures UserCuts(url) == Some((colon, at))
  {
    IndexOfAt(url, ':', |Scheme|, colon);
    IndexOfAt(url, '@', colon + 1, at);
  }

  /** The host stage succeeds wherever some host, port and database cuts
      exist, with a host ending no earlier. */
  lemma HostCutsComplete(url: string, at: nat, hostEnd: nat, portEnd: nat, end: nat)
    requires HostOk(url, at, hostEnd, portEnd, end)
    ensures HostCuts(url, at).Some? && HostCuts(url, at).value.0 >= hostEnd
  {
    var e := IndexOf(url, ':', at + 1);
    assert e >= hostEnd;
    if portEnd > hostEnd {
      IndexOfAt(url, ':', at + 1, hostEnd);
      DigitsEndAt(url, hostEnd + 1, portEnd);
      assert Qualifies(url, portEnd);
      assert PortCuts(url, at, e).Some?;
    } else {
      assert Qualifies(url, hostEnd);
      assert e > hostEnd;
      if PortCuts(url, at, e).None? {
        assert LastSlash(url, at + 2, e).Some?;
      }
    }
  }

  /** Whatever decomposition the URL admits, the matcher finds one with the
      same user and password and a host at least as long: it follows the
      greedy, port-first order of the pattern. */
  lemma MatchComplete(url: string, m: UrlMatch)
    requires Decomposes(url, m)
    ensures MatchUrl(url).Some?
    ensures MatchUrl(url).value.user == m.user && MatchUrl(url).value.password == m.password
    ensures |MatchUrl(url).value.host| >= |m.host|
  {
    var y := DecompositionCuts(url, m);
    FindCutsComplete(url, y);
    var x := FindCuts(url).value;
    var found := MatchOf(url, x);
    assert MatchUrl(url) == Some(found);
    assert found.user == url[|Scheme|..y.colon] == m.user;
    assert found.password == url[y.colon + 1..y.at] == m.password;
    assert |found.host| == x.hostEnd - y.at - 1 && |m.host| == y.hostEnd - y.at - 1;
  }

  /** The digit run from `from` ends at the first non-digit. */
  lemma DigitsEndAt(url: string, from: nat, k: nat)
    requires from <= k < |url| && DigitsIn(url, from, k) && !IsDigit(url[k])
    ensures DigitsEnd(url, from) == k
    decreases k - from
  {
    if from < k {
      DigitsEndAt(url, from + 1, k);
    }
  }

  /** The part of `create_database` before the connection: the database name
      and the connection string `DATABASE_URL.replace(db_name, "postgres")`. */
  function CreateDatabaseTarget(url: string): (r: Result<(string, string)>)
    ensures r.Err? <==> MatchUrl(url).None?
    ensures r.Err? ==> r.msg == InvalidUrlText
    ensures r.Ok? ==> r.value.0 == MatchUrl(url).value.dbName && |r.value.0| > 0 && Lacks(r.value.0, '?')
    ensures r.Ok? ==> r.value.1 == ReplaceAll(url, r.value.0, MaintenanceDb)
  {
    match MatchUrl(url)
    case None => Err(InvalidUrlText)
    case Some(m) =>
      CutsRender(url, FindCuts(url).value);
      Ok((m.dbName, ReplaceAll(url, m.dbName, MaintenanceDb)))
  }

  /** No `c` at or after `from`. */
  lemma IndexOfNone(s: string, c: char, from: nat)
    requires from <= |s| && forall k :: from <= k < |s| ==> s[k] != c
    ensures IndexOf(s, c, from) == |s|
  {
  }

  /** The groups of `postgresql://db:x@h/db`. */
  lemma ExampleCuts()
    ensures FindCuts("postgresql://db:x@h/db") == Some(Cuts(15, 17, 19, 19, 22))
  {
    var url := "postgresql://db:x@h/db";
    assert url[..13] == Scheme;
    IndexOfAt(url, ':', 13, 15);
    IndexOfAt(url, '@', 16, 17);
    IndexOfNone(url, ':', 18);
    assert !Qualifies(url, 21) && !Qualifies(url, 20) && Qualifies(url, 19);
    assert LastSlash(url, 19, 22) == Some(19);
    IndexOfNone(url, '?', 20);
  }

  /** No occurrence of `pat` starts inside `a` when `a` lacks its first letter. */
  lemma NoEarlyOccurrence(a: string, pat: string, b: string)
    requires |pat| > 0 && Lacks(a, pat[0])
    ensures forall j :: 0 <= j < |a| ==> !StartsWith((a + pat + b)[j..], pat)
  {
    forall j | 0 <= j < |a|
      ensures !StartsWith((a + pat + b)[j..], pat)
    {
      assert (a + pat + b)[j..][0] == a[j];
    }
  }

  /** Two occurrences of `pat`, with no stray first letter around them, are
      both replaced. */
  lemma ReplaceTwice(a: string, pat: string, b: string, rep: string)
    requires |pat| > 0 && Lacks(a, pat[0]) && Lacks(b, pat[0])
    ensures ReplaceAll(a + pat + b + pat, pat, rep) == a + rep + b + rep
  {
    var tail := b + pat;
    ReplaceOnce(b, pat, rep);
    NoEarlyOccurrence(a, pat, tail);
    ReplaceAllFirst(a, pat, tail, rep);
    assert a + pat + b + pat == a + pat + tail;
    assert a + rep + (b + rep) == a + rep + b + rep;
  }

  lemma ReplaceOnce(b: string, pat: string, rep: string)
    requires |pat| > 0 && Lacks(b, pat[0])
    ensures ReplaceAll(b + pat, pat, rep) == b + rep
  {
    NoEarlyOccurrence(b, pat, "");
    ReplaceAllFirst(b, pat, "", rep);
    assert b + pat + "" == b + pat;
    assert ReplaceAll("", pat, rep) == "";
    assert b + rep + "" == b + rep;
  }

  /** The replacement on `postgresql://db:x@h/db`, written in its pieces. */
  lemma ExampleReplace()
    ensures ReplaceAll(Scheme + "db" + ":x@h/" + "db", "db", MaintenanceDb) == ExampleConnText()
  {
    assert Lacks(Scheme, 'd') && Lacks(":x@h/", 'd');
    ReplaceTwice(Scheme, "db", ":x@h/", MaintenanceDb);
  }

  /** `postgresql://postgres:x@h/postgres`. */
  function ExampleConnText(): string {
    Scheme + MaintenanceDb + ":x@h/" + MaintenanceDb
  }

  lemma ExampleMatch(url: string)
    requires url == "postgresql://db:x@h/db"
    ensures MatchUrl(url) == Some(UrlMatch("db", "x", "h", None, "db"))
  {
    ExampleCuts();
    assert url[13..15] == "db" && url[16..17] == "x" && url[18..19] == "h" && url[20..22] == "db";
  }

  lemma ExampleConn(url: string)
    requires url == "postgresql://db:x@h/db"
    ensures ReplaceAll(url, "db", MaintenanceDb) == ExampleConnText()
  {
    ExampleReplace();
    assert Scheme + "db" + ":x@h/" + "db" == url;
  }

  lemma ExampleConnUser()
    ensures MatchUrl(ExampleConnText()).Some? && MatchUrl(ExampleConnText()).value.user == MaintenanceDb
  {
    var m := UrlMatch(MaintenanceDb, "x", "h", None, MaintenanceDb);
    var mid := ":" + "x" + "@" + "h" + PortText(None) + "/";
    assert mid == ":x@h/";
    assert Render(m) == Scheme + MaintenanceDb + mid + MaintenanceDb;
    MatchComplete(ExampleConnText(), m);
  }

  /** The replacement also rewrites a user name equal to the database name:
      for `postgresql://db:x@h/db` the connection string is
      `postgresql://postgres:x@h/postgres`, which logs in as `postgres`. */
  lemma ReplaceRewritesCredentials(url: string)
    requires url == "postgresql://db:x@h/db"
    ensures MatchUrl(url) == Some(UrlMatch("db", "x", "h", None, "db"))
    ensures CreateDatabaseTarget(url) == Ok(("db", ExampleConnText()))
    ensures MatchUrl(ExampleConnText()).Some? && MatchUrl(ExampleConnText()).value.user == MaintenanceDb
  {
    ExampleMatch(url);
    ExampleConn(url);
    ExampleConnUser();
  }

  /** The connection string as evidently intended: the same URL with only the
      database name set to `postgres`. */
  function IntendedTarget(url: string): (r: Result<(string, string)>)
    ensures r.Err? <==> MatchUrl(url).None?
    ensures r.Err? ==> r.msg == InvalidUrlText
    ensures r.Ok? ==> r.value.0 == MatchUrl(url).value.dbName
    ensures r.Ok? ==> Decomposes(r.value.1, MatchUrl(url).value.(dbName := MaintenanceDb))
    ensures r.Ok? ==> var m := MatchUrl(url).value;
            && |Render(m)| <= |url|
            && r.value.1[|Render(m.(dbName := MaintenanceDb))|..] == url[|Render(m)|..]
  {
    match FindCuts(url)
    case None => Err(InvalidUrlText)
    case Some(x) =>
      var m := MatchOf(url, x);
      CutsRender(url, x);
      var m' := m.(dbName := MaintenanceDb);
      var conn := Render(m') + url[x.end..];
      assert conn[..|Render(m')|] == Render(m');
      Ok((m.dbName, conn))
  }
}

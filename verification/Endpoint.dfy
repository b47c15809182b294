/** Host and port of an endpoint URL, as the reachability probe splits them. */
module Endpoint {

  /** `s` has `t` at position `i`. */
  predicate At(s: string, t: string, i: nat) { i + |t| <= |s| && s[i..i + |t|] == t }

  /** `std::string::find` from position `i` on; -1 for npos. */
  function FindFrom(s: string, t: string, i: nat): int
    decreases |s| - i
  {
    if i + |t| > |s| then -1 else if At(s, t, i) then i else FindFrom(s, t, i + 1)
  }

  function Find(s: string, t: string): int { FindFrom(s, t, 0) }

  /** `std::string::rfind` of one character; -1 for npos. */
  function RFind(s: string, c: char): (i: int)
    ensures -1 <= i < |s|
  {
    if s == "" then -1 else if s[|s| - 1] == c then |s| - 1 else RFind(s[..|s| - 1], c)
  }

  lemma {:induction false} FindIsFirst(s: string, t: string, i: nat, at: nat)
    requires i <= at && At(s, t, at)
    requires forall k :: i <= k < at ==> !At(s, t, k)
    ensures FindFrom(s, t, i) == at
    decreases at - i
  {
    if i < at {
      FindIsFirst(s, t, i + 1, at);
    }
  }

  lemma {:induction false} FindInBounds(s: string, t: string, i: nat)
    ensures FindFrom(s, t, i) >= 0 ==> At(s, t, FindFrom(s, t, i))
    ensures forall k :: i <= k && (FindFrom(s, t, i) < 0 || k < FindFrom(s, t, i)) ==> !At(s, t, k)
    decreases |s| - i
  {
    if i + |t| <= |s| && !At(s, t, i) {
      FindInBounds(s, t, i + 1);
    }
  }

  lemma {:induction false} RFindIsLast(s: string, c: char, at: nat)
    requires at < |s| && s[at] == c && forall k :: at < k < |s| ==> s[k] != c
    ensures RFind(s, c) == at
  {
    if at < |s| - 1 {
      RFindIsLast(s[..|s| - 1], c, at);
    }
  }

  lemma {:induction false} RFindNowhere(s: string, c: char)
    requires c !in s
    ensures RFind(s, c) == -1
  {
    if s != "" {
      assert s[|s| - 1] in s;
      RFindNowhere(s[..|s| - 1], c);
    }
  }

  const DEFAULT_PORT := "4840"

  datatype Split = Split(host: string, port: string)

  function AfterScheme(url: string): string {
    var i := Find(url, "://");
    if i >= 0 && i + 3 <= |url| then url[i + 3..] else url
  }

  function BeforePath(rest: string): string {
    var i := Find(rest, "/");
    if 0 <= i <= |rest| then rest[..i] else rest
  }

  function HostAndPort(rest: string): Split {
    var i := RFind(rest, ':');
    if i >= 0 then Split(rest[..i], rest[i + 1..]) else Split(rest, DEFAULT_PORT)
  }

  function SplitEndpoint(url: string): Split {
    HostAndPort(BeforePath(AfterScheme(url)))
  }

  /** Scheme, host and port are free of the separators. */
  predicate Plain(s: string) { ':' !in s && '/' !in s }

  datatype Part = Absent | Present(text: string)

  function PrintPort(port: Part): string { if port.Present? then ":" + port.text else "" }

  function PrintPath(path: Part): string { if path.Present? then "/" + path.text else "" }

  /** Printing an endpoint; scheme, port and path may be left out. */
  function Print(scheme: Part, host: string, port: Part, path: Part): string {
    (if scheme.Present? then scheme.text + "://" else "") + host + PrintPort(port) + PrintPath(path)
  }

  lemma NotAt(s: string, t: string, i: nat, k: nat)
    requires k < |t| && i + k < |s| && s[i + k] != t[k]
    ensures !At(s, t, i)
  {
  }

  lemma AbsentChar(s: string, c: char)
    requires c !in s
    ensures forall k :: 0 <= k < |s| ==> s[k] != c
  {
  }

  /** A printed scheme is found and dropped. */
  lemma SchemeIsDropped(scheme: string, rest: string)
    requires Plain(scheme)
    ensures AfterScheme(scheme + "://" + rest) == rest
  {
    var url := scheme + "://" + rest;
    assert At(url, "://", |scheme|);
    AbsentChar(scheme, ':');
    forall k | 0 <= k < |scheme|
      ensures !At(url, "://", k)
    {
      assert url[k] == scheme[k];
      NotAt(url, "://", k, 0);
    }
    FindIsFirst(url, "://", 0, |scheme|);
    assert url[|scheme| + 3..] == rest;
  }

  /** A path that brings a "://" of its own, or completes one after an empty port. */
  predicate PathHidesScheme(port: Part, path: Part) {
    path.Present? && (Find(path.text, "://") >= 0 || (port == Present("") && path.text != "" && path.text[0] == '/'))
  }

  lemma AtShifted(prefix: string, s: string, t: string, k: nat)
    requires At(s, t, k)
    ensures At(prefix + s, t, |prefix| + k)
  {
  }

  lemma FindIsAt(s: string, t: string)
    requires Find(s, t) >= 0
    ensures At(s, t, Find(s, t))
  {
    FindInBounds(s, t, 0);
  }

  lemma JoinedThree(a: string, b: string, c: string)
    ensures (a + b) + c == a + (b + c)
  {
  }

  /** What follows the "://" of such a path. */
  function Exposed(port: Part, path: Part): string
    requires PathHidesScheme(port, path)
  {
    if port == Present("") && path.text != "" && path.text[0] == '/' then path.text[1..]
    else
      FindIsAt(path.text, "://");
      path.text[Find(path.text, "://") + 3..]
  }

  lemma DropAt(rest: string, at: nat)
    requires At(rest, "://", at) && forall k :: 0 <= k < at ==> !At(rest, "://", k)
    ensures Find(rest, "://") == at && AfterScheme(rest) == rest[at + 3..]
  {
    FindIsFirst(rest, "://", 0, at);
  }

  lemma CompletedScheme(host: string, text: string)
    requires Plain(host) && text != "" && text[0] == '/'
    ensures Find(host + ":" + ("/" + text), "://") >= 0
    ensures AfterScheme(host + ":" + ("/" + text)) == text[1..]
  {
    hide Find, AfterScheme, At;
    var rest := host + ":" + ("/" + text);
    var tail := ":" + ("/" + text);
    JoinedThree(host, ":", "/" + text);
    AtStart(tail);
    AtShifted(host, tail, "://", 0);
    AbsentChar(host, ':');
    forall k | 0 <= k < |host|
      ensures !At(rest, "://", k)
    {
      NotAt(rest, "://", k, 0);
    }
    DropAt(rest, |host|);
    assert rest[|host| + 3..] == text[1..];
  }

  lemma SchemeOfPath(host: string, port: Part, text: string)
    requires Plain(host) && (port.Present? ==> Plain(port.text))
    requires Find(text, "://") >= 0 && (port == Present("") ==> text == "" || text[0] != '/')
    ensures Find(text, "://") + 3 <= |text|
    ensures Find(host + PrintPort(port) + ("/" + text), "://") >= 0
    ensures AfterScheme(host + PrintPort(port) + ("/" + text)) == text[Find(text, "://") + 3..]
  {
    FindIsAt(text, "://");
    var authority := host + PrintPort(port);
    var rest := authority + ("/" + text);
    var f := Find(text, "://");
    var at := |authority| + 1 + f;
    assert f + 3 <= |text|;
    hide Find, AfterScheme, At, PrintPort, Plain;
    JoinedThree(authority, "/", text);
    AtShifted(authority + "/", text, "://", f);
    forall k | 0 <= k < at
      ensures !At(rest, "://", k)
    {
      if k < |authority| {
        NoSchemeInAuthority(host, port, "/" + text, k);
      } else {
        NoSchemeInPath(authority, text, k);
      }
    }
    DropAt(rest, at);
    assert rest[at + 3..] == text[f + 3..];
  }

  /** It is taken for the scheme's, and everything up to it goes. */
  lemma HiddenSchemeIsDropped(host: string, port: Part, path: Part)
    requires Plain(host) && (port.Present? ==> Plain(port.text)) && PathHidesScheme(port, path)
    ensures Find(host + PrintPort(port) + PrintPath(path), "://") >= 0
    ensures AfterScheme(host + PrintPort(port) + PrintPath(path)) == Exposed(port, path)
  {
    hide Find, AfterScheme, Plain;
    if port == Present("") && path.text != "" && path.text[0] == '/' {
      assert PrintPort(port) == ":";
      CompletedScheme(host, path.text);
    } else {
      SchemeOfPath(host, port, path.text);
    }
  }

  lemma AtStart(s: string)
    requires |s| >= 3 && s[0] == ':' && s[1] == '/' && s[2] == '/'
    ensures At(s, "://", 0)
  {
  }

  /** No "://" starts in the host or the port. */
  lemma NoSchemeInAuthority(host: string, port: Part, tail: string, k: nat)
    requires Plain(host) && (port.Present? ==> Plain(port.text))
    requires port == Present("") ==> |tail| < 2 || tail[1] != '/'
    requires k < |host + PrintPort(port)|
    ensures !At(host + PrintPort(port) + tail, "://", k)
  {
    var rest := host + PrintPort(port) + tail;
    if k < |host| {
      AbsentChar(host, ':');
      NotAt(rest, "://", k, 0);
    } else if k > |host| {
      AbsentChar(port.text, ':');
      assert rest[k] == port.text[k - |host| - 1];
      NotAt(rest, "://", k, 0);
    } else if port.text != "" {
      AbsentChar(port.text, '/');
      assert rest[k + 1] == port.text[0];
      NotAt(rest, "://", k, 1);
    } else if |tail| >= 2 {
      assert rest[k + 2] == tail[1];
      NotAt(rest, "://", k, 2);
    }
  }

  /** Nor in a path before the first one it brings. */
  lemma NoSchemeInPath(authority: string, text: string, k: nat)
    requires |authority| <= k
    requires Find(text, "://") < 0 || k < |authority| + 1 + Find(text, "://")
    ensures !At(authority + ("/" + text), "://", k)
  {
    var rest := authority + ("/" + text);
    var n := |authority|;
    FindInBounds(text, "://", 0);
    if k == n {
      NotAt(rest, "://", k, 0);
    } else {
      assert k + 3 <= |rest| ==> rest[k..k + 3] == text[k - n - 1..k - n - 1 + 3];
      assert !At(text, "://", k - n - 1);
    }
  }

  lemma NoSchemeIsFound(host: string, port: Part, path: Part)
    requires Plain(host) && (port.Present? ==> Plain(port.text)) && !PathHidesScheme(port, path)
    ensures Find(host + PrintPort(port) + PrintPath(path), "://") < 0
  {
    var rest := host + PrintPort(port) + PrintPath(path);
    FindInBounds(rest, "://", 0);
    forall k: nat
      ensures !At(rest, "://", k)
    {
      if k < |host + PrintPort(port)| {
        NoSchemeInAuthority(host, port, PrintPath(path), k);
      } else if path.Present? {
        NoSchemeInPath(host + PrintPort(port), path.text, k);
      }
    }
  }

  lemma PathIsDropped(authority: string, path: Part)
    requires '/' !in authority
    ensures BeforePath(authority + PrintPath(path)) == authority
  {
    var rest := authority + PrintPath(path);
    AbsentChar(authority, '/');
    forall k | 0 <= k < |authority|
      ensures !At(rest, "/", k)
    {
      NotAt(rest, "/", k, 0);
    }
    if path.Present? {
      assert rest[|authority|..|authority| + 1] == "/";
      FindIsFirst(rest, "/", 0, |authority|);
    } else {
      assert rest == authority;
      FindInBounds(rest, "/", 0);
    }
  }

  lemma PortIsSplit(host: string, port: Part)
    requires Plain(host) && (port.Present? ==> Plain(port.text))
    ensures HostAndPort(host + PrintPort(port)) == Split(host, if port.Present? then port.text else DEFAULT_PORT)
  {
    hide RFind;
    if port.Present? {
      var s := host + PrintPort(port);
      AbsentChar(port.text, ':');
      assert forall k :: |host| < k < |s| ==> s[k] == port.text[k - |host| - 1];
      RFindIsLast(s, ':', |host|);
      assert s[..|host|] == host && s[|host| + 1..] == port.text;
    } else {
      assert host + "" == host;
      RFindNowhere(host, ':');
    }
  }

  /** Without a printed scheme the URL is taken as it is exactly when the path brings none. */
  lemma SchemelessIsKept(host: string, port: Part, path: Part)
    requires Plain(host) && (port.Present? ==> Plain(port.text))
    ensures AfterScheme(Print(Absent, host, port, path)) == Print(Absent, host, port, path)
            <==> !PathHidesScheme(port, path)
  {
    var rest := host + PrintPort(port) + PrintPath(path);
    assert Print(Absent, host, port, path) == rest;
    if PathHidesScheme(port, path) {
      HiddenSchemeIsDropped(host, port, path);
      FindInBounds(rest, "://", 0);
      assert |AfterScheme(rest)| < |rest|;
    } else {
      NoSchemeIsFound(host, port, path);
    }
  }

  lemma PrintForm(scheme: Part, host: string, port: Part, path: Part)
    ensures Print(scheme, host, port, path)
            == (if scheme.Present? then scheme.text + "://" + (host + PrintPort(port) + PrintPath(path))
                else host + PrintPort(port) + PrintPath(path))
  {
    hide PrintPort, PrintPath;
  }

  /** Splitting undoes printing: host and port come back, a missing port becomes 4840, and
      scheme and path do not matter, unless there is no scheme and the path has a "://":
      then what follows it is split instead. */
  lemma SplitUndoesPrint(scheme: Part, host: string, port: Part, path: Part)
    requires (scheme.Present? ==> Plain(scheme.text)) && Plain(host) && (port.Present? ==> Plain(port.text))
    ensures SplitEndpoint(Print(scheme, host, port, path))
            == if scheme.Absent? && PathHidesScheme(port, path) then HostAndPort(BeforePath(Exposed(port, path)))
               else Split(host, if port.Present? then port.text else DEFAULT_PORT)
  {
    PlainAuthority(host, port);
    hide AfterScheme, BeforePath, HostAndPort, PathHidesScheme, Print, PrintPort, PrintPath, Plain, Exposed;
    var rest := host + PrintPort(port) + PrintPath(path);
    PrintForm(scheme, host, port, path);
    if scheme.Present? {
      SchemeIsDropped(scheme.text, rest);
    } else if PathHidesScheme(port, path) {
      HiddenSchemeIsDropped(host, port, path);
    } else {
      SchemelessIsKept(host, port, path);
    }
    PathIsDropped(host + PrintPort(port), path);
    PortIsSplit(host, port);
  }

  lemma PlainAuthority(host: string, port: Part)
    requires Plain(host) && (port.Present? ==> Plain(port.text))
    ensures '/' !in host + PrintPort(port)
  {
  }

  lemma ExposedExample()
    ensures PathHidesScheme(Absent, Present("x://y")) && Exposed(Absent, Present("x://y")) == "y"
  {
    assert At("x://y", "://", 1);
    NotAt("x://y", "://", 0, 0);
    FindIsFirst("x://y", "://", 0, 1);
    assert "x://y"[4..] == "y";
  }

  lemma HostOnly(host: string)
    requires Plain(host)
    ensures HostAndPort(BeforePath(host)) == Split(host, DEFAULT_PORT)
  {
    PathIsDropped(host, Absent);
    PortIsSplit(host, Absent);
    assert host + "" == host;
  }

  /** Such a path: the host is taken from behind its "://". */
  lemma PathTakenForScheme()
    ensures SplitEndpoint("plc/x://y") == Split("y", DEFAULT_PORT)
  {
    hide SplitEndpoint, HostAndPort, BeforePath, PathHidesScheme, Exposed;
    assert Print(Absent, "plc", Absent, Present("x://y")) == "plc/x://y";
    ExposedExample();
    SplitUndoesPrint(Absent, "plc", Absent, Present("x://y"));
    HostOnly("y");
  }
}

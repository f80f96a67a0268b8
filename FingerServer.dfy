/**
 * The finger server: the parse of each received query line into a
 * `Request`, the hand-off of that request and a fresh `Response` to the
 * directory backend, and the configuration the server builds its
 * `TimeoutFilter` from.
 *
 * The query grammar, as the code implements it: the line is trimmed; a
 * leading "/W" asks for verbose output and the first three characters are
 * dropped; text containing '@' is split there into the user part and the
 * host of the directory to proxy to (Java's `String.split`, so trailing
 * empty pieces vanish and a missing piece is an index error).
 */
module FingerServer {
  import opened JavaLang
  import opened Requests
  import opened Responses
  import opened JMXlet
  import Timeouts

  const VerbosePrefix: string := "/W"

  /** The target part of a query (verbose prefix already removed). */
  function Address(query: string, verbose: bool): (r: Result<Request, JavaException>)
    ensures r.Success? ==> r.value.verbose == verbose
    ensures '@' !in query ==> r == Success(Request(query, "", verbose))
  {
    if '@' in query then
      var parts := JavaSplit(query, '@');
      if |parts| == 0 then Failure(ArrayIndexOutOfBounds(0))
      else if |parts| == 1 then Failure(ArrayIndexOutOfBounds(1))
      else Success(Request(parts[0], parts[1], verbose))
    else
      Success(Request(query, "", verbose))
  }

  /** The parse of a trimmed line: the verbose prefix, then the target. */
  function Query(q: string): (r: Result<Request, JavaException>)
    ensures r.Success? ==> (r.value.verbose <==> StartsWith(q, VerbosePrefix))
  {
    var verbose := StartsWith(q, VerbosePrefix);
    if verbose && |q| < 3 then
      Failure(StringIndexOutOfBounds(3, |q|, |q|))
    else
      Address(if verbose then q[3..] else q, verbose)
  }

  /** The body of `messageReceived` up to the call of `lookup`. */
  function Parse(line: string): (r: Result<Request, JavaException>)
    ensures r.Success? ==> (r.value.verbose <==> StartsWith(Trim(line), VerbosePrefix))
  {
    Query(Trim(line))
  }

  // ------------------------------------------------------------- lemmas

  /** Surrounding blanks never matter: parsing a line and parsing its trim agree. */
  lemma ParseTrimmed(line: string)
    ensures Parse(line) == Parse(Trim(line))
  {
    TrimIdempotent(line);
  }

  /** An empty or all-blank line is the request for the default listing. */
  lemma ParseBlankLine(line: string)
    requires AllBlank(line)
    ensures Parse(line) == Success(Request("", "", false))
  {
    TrimEmptyIffBlank(line);
  }

  /** The only failure of the verbose prefix: a query that is exactly "/W". */
  lemma ParseBareVerbose(line: string)
    ensures Parse(line) == Failure(StringIndexOutOfBounds(3, 2, 2)) <== Trim(line) == VerbosePrefix
    ensures Parse(line).Failure? && Parse(line).error.StringIndexOutOfBounds? ==> Trim(line) == VerbosePrefix
  {
  }

  /**
   * The '@' split: the user is the text before the first '@', the host the
   * text between it and the next '@' (or the end); nothing after a second
   * '@' is used. There is no host when only '@'s follow the first one, and
   * not even a user when the whole text is '@'s.
   */
  lemma AddressAt(query: string, verbose: bool)
    requires '@' in query
    ensures var i := FirstIndex(query, '@');
      var rest := query[i + 1..];
      var r := Address(query, verbose);
      && (r.Failure? <==> AllChar(rest, '@'))
      && (r == Failure(ArrayIndexOutOfBounds(0)) <==> AllChar(query, '@'))
      && (r.Failure? ==> r.error.ArrayIndexOutOfBounds?)
      && (r.Success? ==> r.value.userName == query[..i])
      && (r.Success? ==> r.value.proxyHost == if '@' in rest then rest[..FirstIndex(rest, '@')] else rest)
  {
    JavaSplitAtFirst(query, '@');
    var i := FirstIndex(query, '@');
    var rest := query[i + 1..];
    if AllChar(query, '@') {
      forall k | 0 <= k < |rest| ensures rest[k] == '@' {
        assert rest[k] == query[i + 1 + k];
      }
    }
  }

  /** Neither part of a parsed request contains '@'. */
  lemma ParsedPartsHaveNoAt(line: string)
    requires Parse(line).Success?
    ensures '@' !in Parse(line).value.userName && '@' !in Parse(line).value.proxyHost
  {
    var q := Trim(line);
    var query := if StartsWith(q, VerbosePrefix) then q[3..] else q;
    if '@' in query {
      JavaSplitPiecesFree(query, '@');
      var parts := JavaSplit(query, '@');
      assert parts[0] in parts && parts[1] in parts;
    }
  }

  /** The '@' split fails exactly when nothing but '@'s follows the first '@'. */
  lemma AddressFailure(query: string, verbose: bool)
    ensures Address(query, verbose).Failure? <==>
      '@' in query && AllChar(query[FirstIndex(query, '@') + 1..], '@')
  {
    if '@' in query {
      AddressAt(query, verbose);
    }
  }

  /** A trimmed line fails to parse exactly when it is "/W" or its target's '@' split fails. */
  lemma QueryFailure(q: string)
    ensures var query := if StartsWith(q, VerbosePrefix) && |q| >= 3 then q[3..] else q;
      Query(q).Failure? <==>
        (q == VerbosePrefix || ('@' in query && AllChar(query[FirstIndex(query, '@') + 1..], '@')))
  {
    var verbose := StartsWith(q, VerbosePrefix);
    var query := if verbose && |q| >= 3 then q[3..] else q;
    if verbose && |q| < 3 {
      assert q == q[..2] == VerbosePrefix;
    } else {
      assert q != VerbosePrefix;
      assert Query(q) == Address(query, verbose);
      AddressFailure(query, verbose);
    }
  }

  /** A parse fails exactly on "/W" alone or on a target with nothing after its first '@' but '@'s. */
  lemma ParseFailure(line: string)
    ensures var q := Trim(line);
      var query := if StartsWith(q, VerbosePrefix) && |q| >= 3 then q[3..] else q;
      Parse(line).Failure? <==>
        (q == VerbosePrefix || ('@' in query && AllChar(query[FirstIndex(query, '@') + 1..], '@')))
  {
    QueryFailure(Trim(line));
  }

  /** Without the verbose prefix the whole trimmed line is the target. */
  lemma ParsePlain(line: string)
    requires !StartsWith(Trim(line), VerbosePrefix)
    ensures Parse(line) == Address(Trim(line), false)
  {
  }
  /** A line with no blank at either end and no leading '/' is its own target. */
  lemma ParseBareLine(line: string)
    requires line != [] && !IsBlank(line[0]) && !IsBlank(line[|line| - 1]) && line[0] != '/'
    ensures Parse(line) == Address(line, false)
  {
    TrimNoBlankEnds(line);
    assert !StartsWith(line, VerbosePrefix) by { assert |line| >= 2 ==> line[..2][0] == line[0]; }
    ParsePlain(line);
  }

  /** With it, the first three characters go, whatever the third one is. */
  lemma ParseVerboseTarget(line: string)
    requires StartsWith(Trim(line), VerbosePrefix) && |Trim(line)| >= 3
    ensures Parse(line) == Address(Trim(line)[3..], true)
  {
  }

  /** `user@host`, optionally followed by a further '@' and anything. */
  lemma AddressUserHost(user: string, host: string, tail: string, verbose: bool)
    requires '@' !in user && '@' !in host && host != ""
    requires tail == "" || tail[0] == '@'
    ensures Address(user + "@" + host + tail, verbose) == Success(Request(user, host, verbose))
  {
    var q := user + "@" + host + tail;
    FirstIndexAfterPiece(user, '@', host + tail);
    assert q == user + ['@'] + (host + tail);
    var rest := q[|user| + 1..];
    assert rest == host + tail;
    assert q[..|user|] == user;
    assert !AllChar(rest, '@') by { assert rest[0] == host[0]; assert host[0] in host; }
    if tail != "" {
      FirstIndexAfterPiece(host, '@', tail[1..]);
      assert tail == ['@'] + tail[1..];
      assert rest == host + ['@'] + tail[1..];
      assert rest[|host|] == '@';
      assert FirstIndex(rest, '@') == |host|;
      assert rest[..|host|] == host;
    } else {
      assert '@' !in rest;
    }
    AddressAt(q, verbose);
    assert FirstIndex(q, '@') == |user|;
    assert Address(q, verbose).Success?;
    assert Address(q, verbose).value.userName == user;
    assert Address(q, verbose).value.proxyHost == host;
  }
  // Several lemmas below are single examples about one literal line
  // ("Example: ..."). Each takes that line as a parameter pinned by its
  // `requires`, so that the verifier works from the general lemmas rather
  // than by evaluating the parse on the literal; no other line meets it.

  /** A trimmed query with the verbose prefix and a third character: the rest is the target. */
  lemma QueryVerbose(q: string)
    requires |q| >= 3 && StartsWith(q, VerbosePrefix)
    ensures Query(q) == Address(q[3..], true)
  {
  }

  /** A line with no blank at either end is parsed as it stands. */
  lemma ParseUntrimmed(line: string)
    requires line == [] || (!IsBlank(line[0]) && !IsBlank(line[|line| - 1]))
    ensures Parse(line) == Query(line)
  {
    TrimNoBlankEnds(line);
  }

  /** "/W" and one more character, with no blank at the end: verbose, and the target starts after the third character. */
  lemma ParseVerboseLine(line: string)
    requires |line| >= 3 && StartsWith(line, VerbosePrefix) && !IsBlank(line[|line| - 1])
    ensures Parse(line) == Address(line[3..], true)
  {
    assert line[..2][0] == line[0];
    ParseUntrimmed(line);
    QueryVerbose(line);
  }

  /** "/W user@host": verbose and proxied together. */
  lemma ParseVerboseUserAtHost(line: string, user: string, host: string)
    requires line == "/W " + user + "@" + host
    requires '@' !in user && '@' !in host && host != [] && !IsBlank(host[|host| - 1])
    ensures Parse(line) == Success(Request(user, host, true))
  {
    assert line[..2] == VerbosePrefix;
    assert line[|line| - 1] == host[|host| - 1];
    assert line[3..] == user + "@" + host + "";
    ParseVerboseLine(line);
    AddressUserHost(user, host, "", true);
  }

  /** Example: "/W bob@h": verbose and proxied together. */
  lemma ParseVerboseProxied(line: string)
    requires line == "/W bob@h"
    ensures Parse(line) == Success(Request("bob", "h", true))
  {
    ParseVerboseUserAtHost(line, "bob", "h");
  }

  /** "/W user": verbose, no proxy host. */
  lemma ParseVerboseUserOnly(line: string, user: string)
    requires line == "/W " + user
    requires '@' !in user && user != [] && !IsBlank(user[|user| - 1])
    ensures Parse(line) == Success(Request(user, "", true))
  {
    assert line[..2] == VerbosePrefix;
    assert line[|line| - 1] == user[|user| - 1];
    assert line[3..] == user;
    ParseVerboseLine(line);
  }

  /** Example: "/W bob": the verbose prefix and its separator are dropped. */
  lemma ParseVerboseUser(line: string)
    requires line == "/W bob"
    ensures Parse(line) == Success(Request("bob", "", true))
  {
    ParseVerboseUserOnly(line, "bob");
  }

  /** A plain `user@host` line parses to that user and host. */
  lemma ParseUserAtHost(user: string, host: string)
    requires user != [] && !IsBlank(user[0]) && user[0] != '/' && '@' !in user
    requires host != [] && !IsBlank(host[|host| - 1]) && '@' !in host
    ensures Parse(user + "@" + host) == Success(Request(user, host, false))
  {
    var s := user + "@" + host;
    assert s[0] == user[0] && s[|s| - 1] == host[|host| - 1];
    ParseBareLine(s);
    assert s == user + "@" + host + "";
    AddressUserHost(user, host, "", false);
  }

  /** Example: "bob@host:1234": a proxied query with a port. */
  lemma ParseProxied(line: string)
    requires line == "bob@host:1234"
    ensures Parse(line) == Success(Request("bob", "host:1234", false))
  {
    assert line == "bob" + "@" + "host:1234";
    ParseUserAtHost("bob", "host:1234");
  }

  /** Example: "a@b@c": only the piece between the first two '@'s is the host. */
  lemma ParseSecondAtIgnored(line: string)
    requires line == "a@b@c"
    ensures Parse(line) == Success(Request("a", "b", false))
  {
    assert line == "a" + "@" + "b" + "@c";
    ParseBareLine(line);
    AddressUserHost("a", "b", "@c", false);
  }

  /** Example: "bob@" has no second piece. */
  lemma ParseNoHost(line: string)
    requires line == "bob@"
    ensures Parse(line) == Failure(ArrayIndexOutOfBounds(1))
  {
    ParseBareLine(line);
    assert line[3] == '@' && '@' !in line[..3] by { assert line[..3] == "bob"; }
    assert FirstIndex(line, '@') == 3;
    assert line[4..] == [];
    assert !AllChar(line, '@') by { assert line[0] != '@'; }
    AddressAt(line, false);
  }

  /** Text made only of '@'s ("@", "@@", ...) has not even a user part. */
  lemma ParseOnlyAts(line: string)
    requires line != [] && AllChar(line, '@')
    ensures Parse(line) == Failure(ArrayIndexOutOfBounds(0))
  {
    assert line[0] == '@' && line[|line| - 1] == '@';
    ParseBareLine(line);
    AddressAt(line, false);
  }

  // ------------------------------------------------------------ the server

  /** What became of one received line. */
  datatype Dispatch =
    | Rejected(error: JavaException)
    | Dispatched(request: Request, result: LookupResult)

  class Finger {
    const port: int32
    var maxQueryWaitTime: int32
    var maxIdleReadTime: int32
    var threadCount: int32

    constructor (port: int32)
      ensures this.port == port
      ensures maxQueryWaitTime == 5000 && maxIdleReadTime == 1000 && threadCount == 25
    {
      this.port := port;
      maxQueryWaitTime := 5000;
      maxIdleReadTime := 1000;
      threadCount := 25;
    }

    method SetMaxQueryWaitTime(t: int32)
      modifies this
      ensures maxQueryWaitTime == t
      ensures maxIdleReadTime == old(maxIdleReadTime) && threadCount == old(threadCount)
    {
      maxQueryWaitTime := t;
    }

    method SetMaxIdleReadTime(t: int32)
      modifies this
      ensures maxIdleReadTime == t
      ensures maxQueryWaitTime == old(maxQueryWaitTime) && threadCount == old(threadCount)
    {
      maxIdleReadTime := t;
    }

    method SetIoThreadCount(threads: int32)
      modifies this
      ensures threadCount == threads
      ensures maxQueryWaitTime == old(maxQueryWaitTime) && maxIdleReadTime == old(maxIdleReadTime)
    {
      threadCount := threads;
    }

    /** The one filter installed on the acceptor, built from the current settings. */
    method NewTimeoutFilter() returns (f: Timeouts.TimeoutFilter)
      ensures fresh(f)
      ensures f.maxTime == maxQueryWaitTime && f.maxIdle == maxIdleReadTime
      ensures f.State() == Timeouts.Initial()
    {
      f := new Timeouts.TimeoutFilter(maxQueryWaitTime, maxIdleReadTime);
    }

    /**
     * The handler for one received line: parse it, then make exactly one
     * `lookup` call with the request and a fresh response. A parse error
     * escapes before any response exists.
     */
    method MessageReceived(line: string, net: Network, diag: Fault -> Diagnostic)
      returns (d: Dispatch, res: Response?)
      ensures Parse(line).Failure? ==> d == Rejected(Parse(line).error) && res == null
      ensures Parse(line).Success? ==>
        && d.Dispatched? && d.request == Parse(line).value
        && res != null && fresh(res) && res.Valid()
        && res.lines == ResponseLines(d.request, net, diag)
        && res.ops == (if res.lines == [] then [] else [Write(JoinLines(res.lines)), CloseWhenWritten])
        && d.result.escaped == (if res.lines == [] then Some(StringIndexOutOfBounds(0, -2, 0)) else None)
    {
      var p := Parse(line);
      if p.Failure? {
        return Rejected(p.error), null;
      }
      res := new Response();
      var r := Lookup(p.value, res, net, diag);
      d := Dispatched(p.value, r);
    }
  }
}

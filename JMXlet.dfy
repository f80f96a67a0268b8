/**
 * The directory backend: `JMXlet.lookup` resolves a `Request` against a
 * remote management-bean store and pushes the answer into a `Response`.
 *
 * The remote store is abstract. A `Network` maps JMX service URLs to the
 * stores reachable there: connecting succeeds exactly when the URL is a
 * key. A `Directory` maps each registered object name to its attributes in
 * declared order, each holding a value or the message of the exception
 * reading it raises. The stack frames of an exception that reaches the
 * catch block, and its message unless it is a failed attribute read, are
 * opaque and supplied by `diag`.
 */
module JMXlet {
  import opened JavaLang
  import opened Requests
  import opened Responses

  const DefaultPort: string := "8989"

  datatype AttrValue = Value(text: string) | ReadError(message: string)

  datatype Attribute = Attribute(name: string, value: AttrValue)

  datatype Directory = Directory(beans: map<string, seq<Attribute>>)

  type Network = map<string, Directory>

  /** Why the body of `lookup` was abandoned. */
  datatype Fault =
    | Thrown(e: JavaException)
    | ConnectFailed(url: string)
    | BeanNotFound(bean: string)
    | NoSuchAttribute(bean: string, attribute: string)
    | ReadFailed(bean: string, attribute: string, message: string)

  /** What the catch block prints of an exception: its message, then its stack frames. */
  datatype Diagnostic = Diagnostic(message: string, frames: seq<string>)

  /** What the try block did: the lines it sent, the fault it stopped at, whether it opened a connector. */
  datatype TryOutcome = TryOutcome(emitted: seq<string>, fault: Option<Fault>, connectorOpen: bool)

  datatype Cleanup = FinishResponse | CloseConnector

  /** The cleanup steps run, in order, and the exception that escapes `lookup`, if any. */
  datatype LookupResult = LookupResult(cleanup: seq<Cleanup>, escaped: Option<JavaException>)

  // ----------------------------------------------------------- addressing

  /** `host:port` from the proxy host; the port is 8989 unless a `:` is present. */
  function HostPort(proxyHost: string): Result<(string, string), Fault> {
    if ':' in proxyHost then
      var parts := JavaSplit(proxyHost, ':');
      if |parts| == 0 then Failure(Thrown(ArrayIndexOutOfBounds(0)))
      else if |parts| == 1 then Failure(Thrown(ArrayIndexOutOfBounds(1)))
      else Success((parts[0], parts[1]))
    else Success((proxyHost, DefaultPort))
  }

  function ServiceUrl(host: string, port: string): string {
    "service:jmx:rmi:///jndi/rmi://" + host + ":" + port + "/jmxrmi"
  }

  /**
   * Without a `:` the whole proxy host is the host and the port is 8989.
   * With one, the host is the text before the first `:` and the port the
   * text up to the next `:`; an index error is raised when nothing but
   * `:`s follows the first `:` (index 1) or the text is all `:`s (index 0).
   */
  lemma {:induction false} HostPortSplit(proxyHost: string)
    ensures ':' !in proxyHost ==> HostPort(proxyHost) == Success((proxyHost, "8989"))
    ensures ':' in proxyHost ==>
      var i := FirstIndex(proxyHost, ':');
      var rest := proxyHost[i + 1..];
      && (HostPort(proxyHost) == Failure(Thrown(ArrayIndexOutOfBounds(0))) <==> AllChar(proxyHost, ':'))
      && (HostPort(proxyHost).Success? <==> !AllChar(rest, ':'))
      && (HostPort(proxyHost).Success? ==>
            HostPort(proxyHost).value.0 == proxyHost[..i] &&
            HostPort(proxyHost).value.1 == (if ':' in rest then rest[..FirstIndex(rest, ':')] else rest))
  {
    if ':' in proxyHost {
      JavaSplitAtFirst(proxyHost, ':');
    }
  }

  /** "h:" names a port it does not give: parts[1] is out of bounds. */
  lemma HostPortMissingPort()
    ensures HostPort("h:") == Failure(Thrown(ArrayIndexOutOfBounds(1)))
  {
    var s := "h:";
    HostPortSplit(s);
    assert FirstIndex(s, ':') == 1;
    assert AllChar(s[2..], ':');
    assert !AllChar(s, ':') by { assert s[0] != ':'; }
  }

  // -------------------------------------------------------- store access

  /** Where the first attribute called `name` sits; `|attrs|` when there is none. */
  function FindAttribute(attrs: seq<Attribute>, name: string): (i: nat)
    ensures i <= |attrs|
    ensures forall j :: 0 <= j < i ==> attrs[j].name != name
    ensures i < |attrs| ==> attrs[i].name == name
    decreases |attrs|
  {
    if attrs == [] || attrs[0].name == name then 0
    else 1 + FindAttribute(attrs[1..], name)
  }

  /** `mbsc.getAttribute(new ObjectName(bean), attribute)`. */
  function GetAttribute(store: Directory, bean: string, attribute: string): (r: Result<string, Fault>)
  {
    if bean !in store.beans then Failure(BeanNotFound(bean))
    else
      var attrs := store.beans[bean];
      var i := FindAttribute(attrs, attribute);
      if i == |attrs| then Failure(NoSuchAttribute(bean, attribute))
      else match attrs[i].value
        case Value(text) => Success(text)
        case ReadError(message) => Failure(ReadFailed(bean, attribute, message))
  }

  /** `String.valueOf` of an attribute read, or of the message of the exception it raised. */
  function Render(v: AttrValue): string {
    match v
    case Value(text) => text
    case ReadError(message) => message
  }

  function AttributeLines(attrs: seq<Attribute>): seq<string> {
    seq(|attrs|, i requires 0 <= i < |attrs| => attrs[i].name + ": " + Render(attrs[i].value))
  }

  function DiagnosticLines(d: Diagnostic): seq<string> {
    [d.message] + d.frames
  }

  /**
   * What the catch block prints of a fault. A failed attribute read has the
   * message the directory records for that read (the one the attribute
   * listing shows); every other message, and all stack frames, come from `diag`.
   */
  function Describe(f: Fault, diag: Fault -> Diagnostic): Diagnostic {
    if f.ReadFailed? then diag(f).(message := f.message) else diag(f)
  }

  // ------------------------------------------------------ sorted listing

  /** Strictly ascending under `String.compareTo`. */
  ghost predicate Ascending(s: seq<string>) {
    forall i, j :: 0 <= i < j < |s| ==> LexLess(s[i], s[j])
  }

  /** `r` lists the names of `names`, each once, in ascending order. */
  ghost predicate IsSortedListing(r: seq<string>, names: set<string>) {
    Ascending(r) && (forall x :: x in r <==> x in names)
  }

  /** Puts `x` in front of the first element above it. */
  function Insert(x: string, s: seq<string>): (r: seq<string>)
    ensures |r| == |s| + 1
    ensures forall y :: y in r <==> y == x || y in s
    decreases |s|
  {
    if s == [] then [x]
    else if LexLess(x, s[0]) then [x] + s
    else [s[0]] + Insert(x, s[1..])
  }

  lemma {:induction false} InsertAscending(x: string, s: seq<string>)
    requires Ascending(s) && x !in s
    ensures Ascending(Insert(x, s))
    decreases |s|
  {
    if s != [] {
      if LexLess(x, s[0]) {
        var r := [x] + s;
        forall i, j | 0 <= i < j < |r| ensures LexLess(r[i], r[j]) {
          if i == 0 {
            if j > 1 { LexLessTransitive(x, s[0], s[j - 1]); }
          } else {
            assert r[i] == s[i - 1] && r[j] == s[j - 1];
          }
        }
      } else {
        assert s[0] in s;
        LexLessTotal(x, s[0]);
        assert x !in s[1..] by { assert forall y :: y in s[1..] ==> y in s; }
        InsertAscending(x, s[1..]);
        var t := Insert(x, s[1..]);
        var r := [s[0]] + t;
        forall i, j | 0 <= i < j < |r| ensures LexLess(r[i], r[j]) {
          if i == 0 {
            assert r[j] in t;
            if r[j] != x { assert r[j] in s[1..]; var k :| 0 <= k < |s[1..]| && s[1..][k] == r[j]; assert s[k + 1] == r[j]; }
          } else {
            assert r[i] == t[i - 1] && r[j] == t[j - 1];
          }
        }
      }
    }
  }

  lemma AscendingDistinct(s: seq<string>)
    requires Ascending(s)
    ensures forall i, j :: 0 <= i < j < |s| ==> s[i] != s[j]
  {
    forall i, j | 0 <= i < j < |s| ensures s[i] != s[j] {
      LexLessIrreflexive(s[i]);
    }
  }

  /** A listing of a set is empty exactly when the set is. */
  lemma ListingEmpty(r: seq<string>, names: set<string>)
    requires forall x :: x in r <==> x in names
    ensures r == [] <==> names == {}
  {
    if r != [] {
      assert r[0] in names;
    }
  }

  /** At most one ascending sequence lists a given set of names. */
  lemma {:induction false} SortedListingUnique(a: seq<string>, b: seq<string>, names: set<string>)
    requires IsSortedListing(a, names) && IsSortedListing(b, names)
    ensures a == b
    decreases |a|
  {
    if a == [] {
      ListingEmpty(a, names);
      ListingEmpty(b, names);
    } else {
      assert a[0] in names;
      assert b != [];
      if a[0] != b[0] {
        assert a[0] in b && b[0] in a;
        var j :| 0 <= j < |b| && b[j] == a[0];
        var k :| 0 <= k < |a| && a[k] == b[0];
        LexLessAsymmetric(a[0], b[0]);
      }
      AscendingDistinct(a);
      AscendingDistinct(b);
      var rest := names - {a[0]};
      forall x ensures x in a[1..] <==> x in rest {
        if x in a[1..] { var k :| 0 <= k < |a[1..]| && a[1..][k] == x; assert a[k + 1] == x; }
      }
      forall x ensures x in b[1..] <==> x in rest {
        if x in b[1..] { var k :| 0 <= k < |b[1..]| && b[1..][k] == x; assert b[k + 1] == x; }
      }
      SortedListingUnique(a[1..], b[1..], rest);
      assert a == [a[0]] + a[1..] && b == [b[0]] + b[1..];
    }
  }

  lemma {:induction false} SortedListingExists(names: set<string>)
    ensures exists r :: IsSortedListing(r, names)
    decreases names
  {
    if names == {} {
      assert IsSortedListing([], names);
    } else {
      var x :| x in names;
      SortedListingExists(names - {x});
      var r :| IsSortedListing(r, names - {x});
      InsertAscending(x, r);
      assert IsSortedListing(Insert(x, r), names);
    }
  }

  /** The object names of a store as `Collections.sort` leaves them. */
  ghost function SortedNames(names: set<string>): (r: seq<string>)
    ensures IsSortedListing(r, names)
  {
    SortedListingExists(names);
    var r :| IsSortedListing(r, names);
    r
  }

  /** The `for` loop copying the names returned by `queryNames` into a list. */
  method CollectNames(names: set<string>) returns (list: seq<string>)
    ensures forall x :: x in list <==> x in names
    ensures forall i, j :: 0 <= i < j < |list| ==> list[i] != list[j]
  {
    list := [];
    var rest := names;
    while rest != {}
      invariant rest <= names
      invariant forall x :: x in list <==> x in names - rest
      invariant forall i, j :: 0 <= i < j < |list| ==> list[i] != list[j]
      decreases rest
    {
      var n :| n in rest;
      assert n !in list;
      ghost var before := list;
      list := list + [n];
      rest := rest - {n};
      forall x ensures x in list <==> x in names - rest {
        assert x in list <==> x in before || x == n;
      }
    }
  }

  /** `Collections.sort(names)` on a list without duplicates. */
  method SortNames(list: seq<string>) returns (sorted: seq<string>)
    requires forall i, j :: 0 <= i < j < |list| ==> list[i] != list[j]
    ensures Ascending(sorted)
    ensures forall x :: x in sorted <==> x in list
  {
    sorted := [];
    for n := 0 to |list|
      invariant Ascending(sorted)
      invariant forall x :: x in sorted <==> x in list[..n]
    {
      assert list[n] !in list[..n] by {
        assert forall k :: 0 <= k < n ==> list[..n][k] != list[n];
      }
      InsertAscending(list[n], sorted);
      sorted := Insert(list[n], sorted);
      assert list[..n + 1] == list[..n] + [list[n]];
    }
    assert list[..|list|] == list;
  }

  // ------------------------------------------------------ the behaviour

  /** The branches chosen by the pieces of the '#' split, after the verbose echo. */
  ghost function BeanOutcome(parts: seq<string>, store: Directory): TryOutcome
    requires |parts| >= 1
  {
    var bean := parts[0];
    if |parts| == 2 then
      match GetAttribute(store, bean, parts[1])
      case Success(v) => TryOutcome([parts[1] + ": " + v], None, true)
      case Failure(f) => TryOutcome([], Some(f), true)
    else if bean == "" then TryOutcome(SortedNames(store.beans.Keys), None, true)
    else if bean !in store.beans then TryOutcome([], Some(BeanNotFound(bean)), true)
    else TryOutcome(AttributeLines(store.beans[bean]), None, true)
  }

  /** The part of the try block that runs once the connector is open. */
  ghost function StoreOutcome(req: Request, store: Directory): TryOutcome {
    var parts := JavaSplit(req.userName, '#');
    if |parts| == 0 then TryOutcome([], Some(Thrown(ArrayIndexOutOfBounds(0))), true)
    else
      var echo := if req.verbose then [parts[0]] else [];
      var o := BeanOutcome(parts, store);
      TryOutcome(echo + o.emitted, o.fault, true)
  }

  /** The try block of `lookup`, up to the point where it completes or throws. */
  ghost function TryBlock(req: Request, net: Network): TryOutcome {
    match HostPort(req.proxyHost)
    case Failure(f) => TryOutcome([], Some(f), false)
    case Success((host, port)) =>
      var url := ServiceUrl(host, port);
      if url !in net then TryOutcome([], Some(ConnectFailed(url)), false)
      else StoreOutcome(req, net[url])
  }

  /** Every line `lookup` sends: the try block's, then the catch block's diagnostic. */
  ghost function ResponseLines(req: Request, net: Network, diag: Fault -> Diagnostic): seq<string> {
    var t := TryBlock(req, net);
    t.emitted + CatchLines(t.fault, diag)
  }

  /** What the catch block sends: the diagnostic of the fault, if there was one. */
  function CatchLines(fault: Option<Fault>, diag: Fault -> Diagnostic): seq<string> {
    if fault.Some? then DiagnosticLines(Describe(fault.value, diag)) else []
  }

  // ---------------------------------------------- properties of lookup

  /** The request's proxy host leads to `store`: the connector opens on it. */
  ghost predicate Reaches(req: Request, net: Network, store: Directory) {
    var hp := HostPort(req.proxyHost);
    hp.Success? && ServiceUrl(hp.value.0, hp.value.1) in net && net[ServiceUrl(hp.value.0, hp.value.1)] == store
  }

  /**
   * A proxy host without `:` is reached on port 8989: the connector opens
   * exactly when "service:jmx:rmi:///jndi/rmi://HOST:8989/jmxrmi" answers.
   */
  lemma DefaultPortUrl(req: Request, net: Network)
    requires ':' !in req.proxyHost
    ensures TryBlock(req, net).connectorOpen <==>
      "service:jmx:rmi:///jndi/rmi://" + req.proxyHost + ":8989/jmxrmi" in net
  {
    HostPortSplit(req.proxyHost);
    var url := ServiceUrl(req.proxyHost, "8989");
    assert url == "service:jmx:rmi:///jndi/rmi://" + req.proxyHost + ":8989/jmxrmi";
    if url in net {
      assert StoreOutcome(req, net[url]).connectorOpen;
    }
  }

  /**
   * When the connection fails nothing of the query is echoed, not even in
   * verbose mode: the answer is the failure's message and stack frames.
   */
  lemma ConnectFailureIsDiagnosed(req: Request, net: Network, diag: Fault -> Diagnostic)
    requires HostPort(req.proxyHost).Success?
    requires ServiceUrl(HostPort(req.proxyHost).value.0, HostPort(req.proxyHost).value.1) !in net
    ensures ResponseLines(req, net, diag) ==
      DiagnosticLines(diag(ConnectFailed(ServiceUrl(HostPort(req.proxyHost).value.0, HostPort(req.proxyHost).value.1))))
  {
  }

  /** In verbose mode the bean name is the first line, once the connector is open. */
  lemma VerboseEchoesBeanFirst(req: Request, net: Network, diag: Fault -> Diagnostic, store: Directory)
    requires req.verbose && Reaches(req, net, store)
    requires JavaSplit(req.userName, '#') != []
    ensures |ResponseLines(req, net, diag)| >= 1
    ensures ResponseLines(req, net, diag)[0] == JavaSplit(req.userName, '#')[0]
  {
    var hp := HostPort(req.proxyHost);
    assert TryBlock(req, net) == StoreOutcome(req, store);
  }

  /** `bean#attribute` answers with the single line `attribute: value`. */
  lemma SingleAttributeLine(req: Request, net: Network, diag: Fault -> Diagnostic, store: Directory)
    requires !req.verbose && Reaches(req, net, store)
    requires |JavaSplit(req.userName, '#')| == 2
    requires GetAttribute(store, JavaSplit(req.userName, '#')[0], JavaSplit(req.userName, '#')[1]).Success?
    ensures var parts := JavaSplit(req.userName, '#');
      ResponseLines(req, net, diag) == [parts[1] + ": " + GetAttribute(store, parts[0], parts[1]).value]
  {
    assert TryBlock(req, net) == StoreOutcome(req, store);
  }

  /**
   * `bean#attribute` whose read raises: the answer is the message the
   * directory records for that read, then the exception's stack frames.
   */
  lemma SingleAttributeReadFails(req: Request, net: Network, diag: Fault -> Diagnostic, store: Directory)
    requires !req.verbose && Reaches(req, net, store)
    requires |JavaSplit(req.userName, '#')| == 2
    requires var parts := JavaSplit(req.userName, '#');
      parts[0] in store.beans &&
      FindAttribute(store.beans[parts[0]], parts[1]) < |store.beans[parts[0]]| &&
      store.beans[parts[0]][FindAttribute(store.beans[parts[0]], parts[1])].value.ReadError?
    ensures var parts := JavaSplit(req.userName, '#');
      var attrs := store.beans[parts[0]];
      var m := attrs[FindAttribute(attrs, parts[1])].value.message;
      ResponseLines(req, net, diag) == [m] + diag(ReadFailed(parts[0], parts[1], m)).frames
  {
    var parts := JavaSplit(req.userName, '#');
    var attrs := store.beans[parts[0]];
    var m := attrs[FindAttribute(attrs, parts[1])].value.message;
    assert GetAttribute(store, parts[0], parts[1]) == Failure(ReadFailed(parts[0], parts[1], m));
    var t := TryBlock(req, net);
    assert t == StoreOutcome(req, store);
    assert t.emitted == [] && t.fault == Some(ReadFailed(parts[0], parts[1], m));
  }

  /**
   * Verbose mode only adds the echo: once connected, the answer is the bean
   * name followed by exactly the answer the same request gets without `/W`.
   * Every property above of the non-verbose answer therefore holds after the
   * first line of the verbose one.
   */
  lemma VerboseEchoThenAnswer(req: Request, net: Network, diag: Fault -> Diagnostic, store: Directory)
    requires req.verbose && Reaches(req, net, store)
    requires JavaSplit(req.userName, '#') != []
    ensures ResponseLines(req, net, diag) ==
      [JavaSplit(req.userName, '#')[0]] + ResponseLines(req.(verbose := false), net, diag)
  {
    var q := req.(verbose := false);
    var parts := JavaSplit(req.userName, '#');
    var o := BeanOutcome(parts, store);
    assert TryBlock(req, net) == StoreOutcome(req, store);
    assert Reaches(q, net, store);
    assert TryBlock(q, net) == StoreOutcome(q, store);
    assert StoreOutcome(q, store) == TryOutcome(o.emitted, o.fault, true) by {
      assert [] + o.emitted == o.emitted;
    }
    AppendAssociative([parts[0]], o.emitted, CatchLines(o.fault, diag));
  }

  lemma {:induction false} DistinctCardinality(s: seq<string>)
    requires forall i, j :: 0 <= i < j < |s| ==> s[i] != s[j]
    ensures |set x | x in s| == |s|
    decreases |s|
  {
    if s != [] {
      DistinctCardinality(s[1..]);
      assert (set x | x in s) == {s[0]} + (set x | x in s[1..]);
      assert s[0] !in (set x | x in s[1..]) by {
        forall k | 0 <= k < |s[1..]| ensures s[1..][k] != s[0] { assert s[1..][k] == s[k + 1]; }
      }
    }
  }

  /**
   * An empty bean name lists every object name of the store once, in
   * ascending order (the bean name is empty for "" and for targets such as
   * "#a#b" whose split has other than two pieces).
   */
  lemma EmptyBeanListsAllNames(req: Request, net: Network, diag: Fault -> Diagnostic, store: Directory)
    requires !req.verbose && Reaches(req, net, store)
    requires var parts := JavaSplit(req.userName, '#'); |parts| >= 1 && |parts| != 2 && parts[0] == ""
    ensures var lines := ResponseLines(req, net, diag);
      && Ascending(lines)
      && (forall x :: x in lines <==> x in store.beans)
      && |lines| == |store.beans|
  {
    assert TryBlock(req, net) == StoreOutcome(req, store);
    SortedNamesCount(store.beans.Keys);
  }

  lemma SortedNamesCount(names: set<string>)
    ensures |SortedNames(names)| == |names|
  {
    var lines := SortedNames(names);
    AscendingDistinct(lines);
    DistinctCardinality(lines);
    assert (set x | x in lines) == names;
  }

  /**
   * A named bean lists one `name: value` line per attribute, in declared
   * order; an attribute whose read fails shows the failure's message and
   * the lines after it still follow.
   */
  lemma AttributeListing(req: Request, net: Network, diag: Fault -> Diagnostic, store: Directory)
    requires !req.verbose && Reaches(req, net, store)
    requires var parts := JavaSplit(req.userName, '#');
      |parts| >= 1 && |parts| != 2 && parts[0] != "" && parts[0] in store.beans
    ensures var attrs := store.beans[JavaSplit(req.userName, '#')[0]];
      var lines := ResponseLines(req, net, diag);
      && |lines| == |attrs|
      && (forall i :: 0 <= i < |attrs| && attrs[i].value.Value? ==> lines[i] == attrs[i].name + ": " + attrs[i].value.text)
      && (forall i :: 0 <= i < |attrs| && attrs[i].value.ReadError? ==> lines[i] == attrs[i].name + ": " + attrs[i].value.message)
  {
    var parts := JavaSplit(req.userName, '#');
    var t := TryBlock(req, net);
    assert t == StoreOutcome(req, store);
    assert t.emitted == AttributeLines(store.beans[parts[0]]) && t.fault.None?;
    assert ResponseLines(req, net, diag) == t.emitted + [];
  }

  /**
   * Only a split into exactly two pieces selects one attribute: with three
   * or more (`a#b#c`) the answer is the one for the first piece alone.
   */
  lemma ExtraHashesIgnored(req: Request, net: Network, diag: Fault -> Diagnostic)
    requires |JavaSplit(req.userName, '#')| >= 3
    ensures ResponseLines(req, net, diag) == ResponseLines(req.(userName := JavaSplit(req.userName, '#')[0]), net, diag)
  {
    var hp := HostPort(req.proxyHost);
    if hp.Success? && ServiceUrl(hp.value.0, hp.value.1) in net {
      StoreExtraHashesIgnored(req, net[ServiceUrl(hp.value.0, hp.value.1)]);
    }
  }

  /** `ExtraHashesIgnored`, once the connector is open on `store`. */
  lemma StoreExtraHashesIgnored(req: Request, store: Directory)
    requires |JavaSplit(req.userName, '#')| >= 3
    ensures StoreOutcome(req, store) == StoreOutcome(req.(userName := JavaSplit(req.userName, '#')[0]), store)
  {
    var parts := JavaSplit(req.userName, '#');
    var bean := parts[0];
    JavaSplitPiecesFree(req.userName, '#');
    assert bean in parts;
    assert JavaSplit(bean, '#') == [bean];
    assert BeanOutcome(parts, store) == BeanOutcome([bean], store);
  }

  /**
   * `finish` throws only when nothing was sent, and that happens only after
   * the connector opened: the empty answer is exactly the case in which
   * `lookup` throws and leaves the connector open.
   */
  lemma EmptyAnswerLeavesConnectorOpen(req: Request, net: Network, diag: Fault -> Diagnostic)
    requires ResponseLines(req, net, diag) == []
    ensures TryBlock(req, net).connectorOpen && TryBlock(req, net).fault.None? && !req.verbose
  {
    var t := TryBlock(req, net);
    assert ResponseLines(req, net, diag) ==
      t.emitted + CatchLines(t.fault, diag);
  }

  /**
   * The only empty answers: a non-verbose listing, without an attribute
   * piece, of a store that has no beans or of a bean that has no attributes.
   */
  lemma EmptyAnswerIsEmptyListing(req: Request, net: Network, diag: Fault -> Diagnostic, store: Directory)
    requires Reaches(req, net, store) && ResponseLines(req, net, diag) == []
    ensures var parts := JavaSplit(req.userName, '#');
      && !req.verbose && |parts| >= 1 && |parts| != 2
      && ((parts[0] == "" && store.beans == map[])
          || (parts[0] in store.beans && store.beans[parts[0]] == []))
  {
    EmptyAnswerLeavesConnectorOpen(req, net, diag);
    assert TryBlock(req, net) == StoreOutcome(req, store);
    var parts := JavaSplit(req.userName, '#');
    if |parts| >= 1 && parts[0] == "" && |parts| != 2 {
      ListingEmpty(SortedNames(store.beans.Keys), store.beans.Keys);
    }
  }

  /** `res.sendLine` of each of `lines`, in order. */
  method SendLines(res: Response, lines: seq<string>)
    requires res.Valid()
    modifies res
    ensures res.Valid() && res.ops == old(res.ops)
    ensures res.lines == old(res.lines) + lines
  {
    for i := 0 to |lines|
      invariant res.Valid() && res.ops == old(res.ops)
      invariant res.lines == old(res.lines) + lines[..i]
    {
      res.SendLine(lines[i]);
      assert lines[..i + 1] == lines[..i] + [lines[i]];
    }
    assert lines[..|lines|] == lines;
  }

  /**
   * The loop over the bean's attribute infos: one `name: value` line per
   * attribute, where a read that throws contributes its exception's message.
   */
  method SendAttributes(res: Response, infos: seq<Attribute>)
    requires res.Valid()
    modifies res
    ensures res.Valid() && res.ops == old(res.ops)
    ensures res.lines == old(res.lines) + AttributeLines(infos)
  {
    for i := 0 to |infos|
      invariant res.Valid() && res.ops == old(res.ops)
      invariant res.lines == old(res.lines) + AttributeLines(infos[..i])
    {
      var attr := Render(infos[i].value);
      res.Send(infos[i].name, attr);
      assert AttributeLines(infos[..i + 1]) == AttributeLines(infos[..i]) + [infos[i].name + ": " + attr];
    }
    assert infos[..|infos|] == infos;
  }

  /** The empty-bean branch: collect the object names, sort them, send one line each. */
  method SendSortedNames(res: Response, store: Directory)
    requires res.Valid()
    modifies res
    ensures res.Valid() && res.ops == old(res.ops)
    ensures res.lines == old(res.lines) + SortedNames(store.beans.Keys)
  {
    var names := CollectNames(store.beans.Keys);
    names := SortNames(names);
    SortedListingUnique(names, SortedNames(store.beans.Keys), store.beans.Keys);
    SendLines(res, names);
  }

  /** The branches of the try block after the verbose echo. */
  method QueryBean(parts: seq<string>, res: Response, store: Directory) returns (fault: Option<Fault>)
    requires |parts| >= 1
    requires res.Valid()
    modifies res
    ensures res.Valid() && res.ops == old(res.ops)
    ensures res.lines == old(res.lines) + BeanOutcome(parts, store).emitted
    ensures fault == BeanOutcome(parts, store).fault
  {
    fault := None;
    var bean := parts[0];
    if |parts| == 2 {
      // two pieces: read one attribute
      var attribute := parts[1];
      var value := GetAttribute(store, bean, attribute);
      if value.Success? {
        res.Send(attribute, value.value);
      } else {
        fault := Some(value.error);
      }
    } else if |bean| == 0 {
      // empty bean name: every object name, sorted
      SendSortedNames(res, store);
    } else if bean !in store.beans {
      fault := Some(BeanNotFound(bean));
    } else {
      // a named bean: each of its attributes in turn
      SendAttributes(res, store.beans[bean]);
    }
  }

  /** The try block from the '#' split on, once the connector is open. */
  method QueryStore(req: Request, res: Response, store: Directory) returns (fault: Option<Fault>)
    requires res.Valid()
    modifies res
    ensures res.Valid() && res.ops == old(res.ops)
    ensures res.lines == old(res.lines) + StoreOutcome(req, store).emitted
    ensures fault == StoreOutcome(req, store).fault
  {
    var parts := JavaSplit(req.userName, '#');
    if |parts| == 0 {
      fault := Some(Thrown(ArrayIndexOutOfBounds(0)));
      return;
    }
    var bean := parts[0];
    if req.verbose {
      res.SendLine(bean);
    }
    fault := QueryBean(parts, res, store);
  }

  /** The try block of `lookup`: address, connect, then query the store. */
  method Try(req: Request, res: Response, net: Network) returns (fault: Option<Fault>, connectorOpen: bool)
    requires res.Valid()
    modifies res
    ensures res.Valid() && res.ops == old(res.ops)
    ensures res.lines == old(res.lines) + TryBlock(req, net).emitted
    ensures fault == TryBlock(req, net).fault && connectorOpen == TryBlock(req, net).connectorOpen
  {
    connectorOpen := false;
    var hp := HostPort(req.proxyHost);
    if hp.Failure? {
      fault := Some(hp.error);
    } else {
      var (host, port) := hp.value;
      var url := ServiceUrl(host, port);
      if url !in net {
        fault := Some(ConnectFailed(url));
      } else {
        connectorOpen := true;
        fault := QueryStore(req, res, net[url]);
      }
    }
  }

  /** The try and catch blocks of `lookup`: the answer, or the diagnostic of what went wrong. */
  method Answer(req: Request, res: Response, net: Network, diag: Fault -> Diagnostic) returns (connectorOpen: bool)
    requires res.Valid()
    modifies res
    ensures res.Valid() && res.ops == old(res.ops)
    ensures res.lines == old(res.lines) + ResponseLines(req, net, diag)
    ensures connectorOpen == TryBlock(req, net).connectorOpen
  {
    ghost var before := res.lines;
    var fault;
    fault, connectorOpen := Try(req, res, net);
    Catch(res, fault, diag);
    AppendAssociative(before, TryBlock(req, net).emitted, CatchLines(fault, diag));
  }

  /** The catch block of `lookup`: sends the diagnostic of the fault, if any. */
  method Catch(res: Response, fault: Option<Fault>, diag: Fault -> Diagnostic)
    requires res.Valid()
    modifies res
    ensures res.Valid() && res.ops == old(res.ops)
    ensures res.lines == old(res.lines) + CatchLines(fault, diag)
  {
    if fault.Some? {
      var d := diag(fault.value);
      if fault.value.ReadFailed? {
        d := d.(message := fault.value.message);
      }
      SendLines(res, DiagnosticLines(d));
    }
  }

  /**
   * `lookup(req, res)`: sends the answer into `res`, then runs the finally
   * block: `res.finish()` first, then the connector's `close()` if one was
   * opened. When `finish` throws (nothing was sent) the exception leaves
   * `lookup` and the connector is not closed.
   */
  method Lookup(req: Request, res: Response, net: Network, diag: Fault -> Diagnostic) returns (r: LookupResult)
    requires res.Valid()
    modifies res
    ensures res.Valid()
    ensures res.lines == old(res.lines) + ResponseLines(req, net, diag)
    ensures r.escaped == if res.lines == [] then Some(StringIndexOutOfBounds(0, -2, 0)) else None
    ensures res.ops == old(res.ops) + if res.lines == [] then [] else [Write(JoinLines(res.lines)), CloseWhenWritten]
    ensures r.cleanup == [FinishResponse] + if TryBlock(req, net).connectorOpen && r.escaped.None? then [CloseConnector] else []
  {
    var connectorOpen := Answer(req, res, net, diag);
    // finally
    var thrown := res.Finish();
    if connectorOpen && thrown.None? {
      r := LookupResult([FinishResponse, CloseConnector], None);
    } else {
      r := LookupResult([FinishResponse], thrown);
    }
  }
}

/** Host labels: which script, session, revision or alias a Host header addresses. */
module HostRoute {
  import opened Prelude
  import opened Text

  datatype Route =
    | Published(identifier: string)
    | Live(identifier: string, session: string)
    | Revision(identifier: string, revision: string)
    | Aliased(identifier: string, alias: string)

  datatype AliasError = Misshapen | Reserved

  function RouteByHost(host: string, base: string): Option<Route> {
    var host := Before(host, ':');
    match StripSuffix(host, base)
    case None => None
    case Some(dotted) =>
      match StripSuffix(dotted, ".")
      case None => None
      case Some(leaf) => if leaf == [] || '.' in leaf then None else Some(RouteLabel(leaf))
  }

  function RouteLabel(leaf: string): Route {
    match SplitOnce(leaf, "--live-")
    case Some((identifier, session)) => Live(identifier, session)
    case None =>
      match SplitOnce(leaf, "--r-")
      case Some((identifier, revision)) => Revision(identifier, revision)
      case None =>
        match SplitOnce(leaf, "--")
        case Some((identifier, alias)) => Aliased(identifier, alias)
        case None => Published(leaf)
  }

  predicate AliasChar(c: char) {
    'a' <= c <= 'z' || '0' <= c <= '9' || c == '-'
  }

  ghost predicate Shaped(name: string) {
    && 0 < |name| <= 64
    && (forall i | 0 <= i < |name| :: AliasChar(name[i]))
    && name[0] != '-' && name[|name| - 1] != '-'
    && !Contains(name, "--")
  }

  predicate StartsReserved(name: string) {
    "live-" <= name || "r-" <= name
  }

  ghost function AliasNameError(name: string): Option<AliasError> {
    if !Shaped(name) then Some(Misshapen)
    else if StartsReserved(name) then Some(Reserved)
    else None
  }

  // ---- Rendering ------------------------------------------------------------------------

  function Label(r: Route): string {
    match r
    case Published(id) => id
    case Live(id, session) => id + "--live-" + session
    case Revision(id, revision) => id + "--r-" + revision
    case Aliased(id, alias) => id + "--" + alias
  }

  function Host(leaf: string, base: string, port: Option<string>): string {
    leaf + "." + base + match port { case Some(p) => ":" + p case None => "" }
  }

  predicate Plain(s: string) {
    '.' !in s && ':' !in s
  }

  ghost predicate Identifier(id: string) {
    id != [] && Plain(id) && !Contains(id, "--") && id[|id| - 1] != '-'
  }

  /** Lower-case hex digits and dashes, the alphabet of a printed revision id. */
  predicate HexId(s: string) {
    forall i | 0 <= i < |s| :: '0' <= s[i] <= '9' || 'a' <= s[i] <= 'f' || s[i] == '-'
  }

  ghost predicate WellFormed(r: Route) {
    && Identifier(r.identifier)
    && (r.Live? ==> Plain(r.session))
    && (r.Revision? ==> HexId(r.revision))
    && (r.Aliased? ==> AliasNameError(r.alias).None?)
  }

  // ---- Where the markers can be -----------------------------------------------------------

  lemma NotAt(s: string, pattern: string, i: nat, k: nat)
    requires k < |pattern| && (i + |pattern| <= |s| ==> s[i + k] != pattern[k])
    ensures !IsAt(s, pattern, i)
  {
  }

  lemma NoDashes(s: string, i: nat)
    requires !Contains(s, "--") && i + 2 <= |s|
    ensures s[i] != '-' || s[i + 1] != '-'
  {
    assert !IsAt(s, "--", i);
    assert s[i..i + 2] == [s[i], s[i + 1]];
  }

  /** No marker starts inside an identifier, whatever follows it. */
  lemma NoMarkerInIdentifier(id: string, tail: string, marker: string, j: nat)
    requires Identifier(id) && "--" <= marker && j < |id|
    ensures !IsAt(id + tail, marker, j)
  {
    assert marker[0] == '-' && marker[1] == '-';
    if j + 1 < |id| {
      NoDashes(id, j);
    }
    NotAt(id + tail, marker, j, if id[j] != '-' then 0 else 1);
  }

  lemma SplitsAfterIdentifier(id: string, marker: string, rest: string)
    requires Identifier(id) && "--" <= marker
    ensures SplitOnce(id + marker + rest, marker) == Some((id, rest))
  {
    var s := id + marker + rest;
    assert s == id + (marker + rest);
    assert s[|id|..|id| + |marker|] == marker;
    forall j: nat | j < |id| ensures !IsAt(s, marker, j) {
      NoMarkerInIdentifier(id, marker + rest, marker, j);
    }
    SplitsAt(s, marker, |id|);
    assert s[..|id|] == id && s[|id| + |marker|..] == rest;
  }

  /** A marker that is more than two dashes is absent when its third character never follows the identifier. */
  lemma NoMarkerByLetter(id: string, tail: string, marker: string)
    requires Identifier(id) && "--" <= marker && |marker| > 2
    requires forall i | 0 <= i < |tail| :: tail[i] != marker[2]
    ensures SplitOnce(id + tail, marker).None?
  {
    var s := id + tail;
    forall j: nat ensures !IsAt(s, marker, j) {
      if j < |id| {
        NoMarkerInIdentifier(id, tail, marker, j);
      } else {
        assert j + 2 < |s| ==> s[j + 2] == tail[j + 2 - |id|];
        NotAt(s, marker, j, 2);
      }
    }
  }

  lemma MarkerAtAlias(id: string, alias: string, marker: string)
    requires |marker| > 2 && IsAt(id + "--" + alias, marker, |id|)
    ensures marker[2..] <= alias
  {
  }

  /** After an alias of the right shape, a longer marker can only start where the alias does. */
  lemma NoMarkerInAlias(id: string, alias: string, marker: string, j: nat)
    requires Identifier(id) && Shaped(alias) && "--" <= marker && |marker| > 2 && !(marker[2..] <= alias)
    ensures !IsAt(id + "--" + alias, marker, j)
  {
    var s := id + "--" + alias;
    assert marker[0] == '-' && marker[1] == '-';
    if j < |id| {
      assert s == id + ("--" + alias);
      NoMarkerInIdentifier(id, "--" + alias, marker, j);
    } else if j == |id| {
      if IsAt(s, marker, j) {
        MarkerAtAlias(id, alias, marker);
      }
    } else if j == |id| + 1 {
      assert j + 1 < |s| ==> s[j + 1] == alias[0];
      NotAt(s, marker, j, 1);
    } else if j + 2 <= |s| {
      NoDashes(alias, j - |id| - 2);
      assert s[j] == alias[j - |id| - 2] && s[j + 1] == alias[j - |id| - 1];
      NotAt(s, marker, j, if s[j] != '-' then 0 else 1);
    }
  }

  lemma AliasWithoutMarker(id: string, alias: string, marker: string)
    requires Identifier(id) && Shaped(alias) && "--" <= marker && |marker| > 2 && !(marker[2..] <= alias)
    ensures SplitOnce(id + "--" + alias, marker).None?
  {
    forall j: nat ensures !IsAt(id + "--" + alias, marker, j) {
      NoMarkerInAlias(id, alias, marker, j);
    }
  }

  lemma IdentifierWithoutMarker(id: string, marker: string)
    requires Identifier(id) && "--" <= marker
    ensures SplitOnce(id, marker).None?
  {
    forall j: nat ensures !IsAt(id, marker, j) {
      if j < |id| {
        assert id + "" == id;
        NoMarkerInIdentifier(id, "", marker, j);
      }
    }
  }

  lemma PublishedLabel(id: string)
    requires Identifier(id)
    ensures RouteLabel(id) == Published(id)
  {
    IdentifierWithoutMarker(id, "--live-");
    IdentifierWithoutMarker(id, "--r-");
    IdentifierWithoutMarker(id, "--");
  }

  lemma RevisionLabel(id: string, revision: string)
    requires Identifier(id) && HexId(revision)
    ensures RouteLabel(id + "--r-" + revision) == Revision(id, revision)
  {
    assert id + "--r-" + revision == id + ("--r-" + revision);
    NoMarkerByLetter(id, "--r-" + revision, "--live-");
    SplitsAfterIdentifier(id, "--r-", revision);
  }

  /** For an alias of the right shape, the reserved prefixes are exactly what would misroute it. */
  lemma AliasLabel(id: string, alias: string)
    requires Identifier(id) && Shaped(alias)
    ensures RouteLabel(id + "--" + alias) == Aliased(id, alias) <==> AliasNameError(alias).None?
  {
    var s := id + "--" + alias;
    var live, rev := "--live-", "--r-";
    assert live[2..] == "live-" && rev[2..] == "r-";
    if "live-" <= alias {
      assert s == id + live + alias[5..];
      SplitsAfterIdentifier(id, live, alias[5..]);
    } else {
      AliasWithoutMarker(id, alias, live);
      if "r-" <= alias {
        assert s == id + rev + alias[2..];
        SplitsAfterIdentifier(id, rev, alias[2..]);
      } else {
        AliasWithoutMarker(id, alias, rev);
        SplitsAfterIdentifier(id, "--", alias);
      }
    }
  }

  lemma LabelIsPlain(r: Route)
    requires WellFormed(r)
    ensures Plain(Label(r)) && Label(r) != []
  {
  }

  lemma LabelRoutesBack(r: Route)
    requires WellFormed(r)
    ensures RouteLabel(Label(r)) == r
  {
    match r
    case Published(id) => PublishedLabel(id);
    case Live(id, session) => SplitsAfterIdentifier(id, "--live-", session);
    case Revision(id, revision) => RevisionLabel(id, revision);
    case Aliased(id, alias) => AliasLabel(id, alias);
  }

  lemma HostUnwraps(leaf: string, base: string, port: Option<string>)
    requires Plain(leaf) && leaf != [] && ':' !in base
    ensures RouteByHost(Host(leaf, base, port), base) == Some(RouteLabel(leaf))
  {
    var dotted := leaf + ".";
    var bare := dotted + base;
    var rest := match port { case Some(p) => ":" + p case None => "" };
    assert Host(leaf, base, port) == bare + rest;
    BeforeStops(bare, ':', rest);
    assert bare[|bare| - |base|..] == base && bare[..|bare| - |base|] == dotted;
    assert dotted[|dotted| - 1..] == "." && dotted[..|dotted| - 1] == leaf;
  }

  /** Every well-formed target is what its own host addresses, with or without a port; so no two
      targets share a host. */
  lemma HostRoutesBack(r: Route, base: string, port: Option<string>)
    requires WellFormed(r) && ':' !in base
    ensures RouteByHost(Host(Label(r), base, port), base) == Some(r)
  {
    LabelRoutesBack(r);
    LabelIsPlain(r);
    HostUnwraps(Label(r), base, port);
  }

  lemma HostsAreNeverConfused(a: Route, b: Route, base: string, p: Option<string>, q: Option<string>)
    requires WellFormed(a) && WellFormed(b) && ':' !in base
    requires Host(Label(a), base, p) == Host(Label(b), base, q)
    ensures a == b
  {
    HostRoutesBack(a, base, p);
    HostRoutesBack(b, base, q);
  }

  /** Whatever routes at all renders back to the host it came from, port aside. */
  lemma RoutedRendersBack(host: string, base: string)
    requires RouteByHost(host, base).Some?
    ensures Host(Label(RouteByHost(host, base).value), base, None) == Before(host, ':')
  {
  }
}

/** Object keys: scope, class and name, printed with slashes and read back. */
module Identity {
  import opened Prelude
  import opened Text

  const CRON_CLASS := "__cron"
  const DATABASE_CLASS := "__database"

  datatype ObjectKey = ObjectKey(scope: string, className: string, name: string)

  /** A schedule belongs to its script; everything else is shared by the project. */
  function Scoped(project: string, script: string, className: string, name: string): ObjectKey {
    ObjectKey(if className == CRON_CLASS then script else project, className, name)
  }

  function Print(k: ObjectKey): string {
    k.scope + "/" + k.className + "/" + k.name
  }

  /** A three-way split whose parts must all be there and none empty; the name keeps its slashes. */
  function Parse(s: string): Option<ObjectKey> {
    match SplitOnce(s, "/")
    case None => None
    case Some((scope, rest)) =>
      if scope == [] then None
      else
        match SplitOnce(rest, "/")
        case None => None
        case Some((className, name)) =>
          if className == [] || name == [] then None else Some(ObjectKey(scope, className, name))
  }

  predicate WellFormed(k: ObjectKey) {
    k.scope != [] && '/' !in k.scope && k.className != [] && '/' !in k.className && k.name != []
  }

  lemma SlashAt(s: string, i: nat)
    ensures IsAt(s, "/", i) <==> i < |s| && s[i] == '/'
  {
  }

  lemma SplitSlash(a: string, b: string)
    requires '/' !in a
    ensures SplitOnce(a + "/" + b, "/") == Some((a, b))
  {
    var s := a + "/" + b;
    forall j: nat ensures IsAt(s, "/", j) <==> j < |s| && s[j] == '/' {
      SlashAt(s, j);
    }
    SplitsAt(s, "/", |a|);
    assert s[..|a|] == a && s[|a| + 1..] == b;
  }

  lemma SplitHeadHasNoSlash(s: string)
    requires SplitOnce(s, "/").Some?
    ensures '/' !in SplitOnce(s, "/").value.0
  {
    var i := FindFrom(s, "/", 0).value;
    forall j: nat | j < i ensures s[j] != '/' {
      SlashAt(s, j);
    }
  }

  /** What parses prints back to itself, and is well formed. */
  lemma ParsedPrintsBack(s: string)
    requires Parse(s).Some?
    ensures Print(Parse(s).value) == s && WellFormed(Parse(s).value)
  {
    var outer := SplitOnce(s, "/").value;
    var inner := SplitOnce(outer.1, "/").value;
    SplitHeadHasNoSlash(s);
    SplitHeadHasNoSlash(outer.1);
    Reassociate(outer.0, inner.0, inner.1);
  }

  lemma Reassociate(a: string, b: string, c: string)
    ensures a + "/" + (b + "/" + c) == a + "/" + b + "/" + c
  {
  }

  /** A printed key reads back exactly when scope and class are non-empty and slash-free and the name is non-empty. */
  lemma PrintedParsesBackExactly(k: ObjectKey)
    ensures Parse(Print(k)) == Some(k) <==> WellFormed(k)
  {
    if WellFormed(k) {
      var rest := k.className + "/" + k.name;
      assert Print(k) == k.scope + "/" + rest;
      SplitSlash(k.scope, rest);
      SplitSlash(k.className, k.name);
    }
    if Parse(Print(k)) == Some(k) {
      ParsedPrintsBack(Print(k));
    }
  }

  /** So two well-formed keys never share a printed form, the preimage of the object id. */
  lemma PrintIsInjective(a: ObjectKey, b: ObjectKey)
    requires WellFormed(a) && WellFormed(b) && Print(a) == Print(b)
    ensures a == b
  {
    PrintedParsesBackExactly(a);
    PrintedParsesBackExactly(b);
  }
}

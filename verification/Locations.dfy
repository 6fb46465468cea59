/** Which location a URI belongs to. */
module Locations {
  import opened Text
  import opened Config

  /** `key` is `uri`, or `uri` cut just before one of its slashes. */
  predicate Ancestor(key: string, uri: string) {
    key <= uri && (|key| == |uri| || uri[|key|] == '/')
  }

  /** The configured paths that can be chosen: "/" is only the last resort. */
  predicate Candidate(key: string, uri: string, locations: map<string, Location>) {
    Ancestor(key, uri) && key in locations && key != "/" && key != ""
  }

  // --------------------------------------------------- the loop over keys

  /** The next key tried. The `substr` up to no slash at all is the whole key again. */
  function NextKey(key: string): string {
    if LastIndexOf(key, '/') == -1 then key else key[..LastIndexOf(key, '/')]
  }

  function KeyAt(uri: string, n: nat): string {
    if n == 0 then uri else NextKey(KeyAt(uri, n - 1))
  }

  predicate StopsAt(key: string, locations: map<string, Location>) {
    key == "/" || key == "" || key in locations
  }

  ghost predicate LoopEnds(uri: string, locations: map<string, Location>) {
    exists n: nat :: StopsAt(KeyAt(uri, n), locations)
  }

  lemma {:induction false} NextIsAncestor(key: string, uri: string)
    requires Ancestor(key, uri)
    ensures Ancestor(NextKey(key), uri)
    ensures forall k :: Ancestor(k, uri) && |k| < |key| ==> |k| <= |NextKey(key)| < |key|
  {
    var cut := LastIndexOf(key, '/');
    forall k | Ancestor(k, uri) && |k| < |key| ensures |k| <= cut {
      assert key == uri[..|key|] && key[|k|] == '/';
    }
  }

  lemma {:induction false} KeyIsAncestor(uri: string, n: nat)
    ensures Ancestor(KeyAt(uri, n), uri)
  {
    if n > 0 {
      KeyIsAncestor(uri, n - 1);
      NextIsAncestor(KeyAt(uri, n - 1), uri);
    }
  }

  /** Every ancestor is a key in its turn. */
  lemma {:induction false} Reaches(uri: string, k: string, n: nat) returns (m: nat)
    requires Ancestor(k, uri) && |k| <= |KeyAt(uri, n)|
    ensures KeyAt(uri, m) == k
    decreases |KeyAt(uri, n)|
  {
    var key := KeyAt(uri, n);
    KeyIsAncestor(uri, n);
    if |k| == |key| {
      assert k == uri[..|k|] == key;
      m := n;
    } else {
      NextIsAncestor(key, uri);
      m := Reaches(uri, k, n + 1);
    }
  }

  /** The loop ends exactly for URIs that are empty, begin with a slash, or have a
      configured ancestor. */
  lemma {:induction false} LoopEndsExactly(uri: string, locations: map<string, Location>)
    ensures LoopEnds(uri, locations) <==> uri == "" || uri[0] == '/' || exists k :: Candidate(k, uri, locations)
  {
    if LoopEnds(uri, locations) {
      var n: nat :| StopsAt(KeyAt(uri, n), locations);
      KeyIsAncestor(uri, n);
      var key := KeyAt(uri, n);
      if key in locations && key != "/" && key != "" {
        assert Candidate(key, uri, locations);
      }
    }
    if uri == "" || uri[0] == '/' {
      var n := Reaches(uri, "", 0);
      assert StopsAt(KeyAt(uri, n), locations);
    } else if exists k :: Candidate(k, uri, locations) {
      var k :| Candidate(k, uri, locations);
      var n := Reaches(uri, k, 0);
      assert StopsAt(KeyAt(uri, n), locations);
    }
  }

  /** A key that no slash can shorten comes again and again. */
  lemma {:induction false} SameKeyAgain(uri: string, n: nat, m: nat)
    requires NextKey(KeyAt(uri, n)) == KeyAt(uri, n) && m >= n
    ensures KeyAt(uri, m) == KeyAt(uri, n)
  {
    if m > n {
      SameKeyAgain(uri, n, m - 1);
    }
  }

  lemma {:induction false} KeyAtNext(uri: string, n: nat)
    ensures KeyAt(uri, n + 1) == NextKey(KeyAt(uri, n))
  {
  }

  /** The longest configured ancestor, else the location of "/", made if it is not there. */
  ghost predicate Resolved(key: string, uri: string, before: map<string, Location>, after: map<string, Location>) {
    && key in after
    && (Candidate(key, uri, before) || key == "/")
    && (forall k :: Candidate(k, uri, before) ==> Candidate(key, uri, before) && |k| <= |key|)
    && after == (if key in before then before else before[key := Unconfigured()])
    && (key == "/" ==> uri == "" || uri[0] == '/')
  }

  /** What `operator[]` puts under "/" when the configuration has nothing there. */
  function Unconfigured(): Location {
    Location("", 0, "", map[], [], "", "", false, 0, "")
  }

  /** Each location is found under its own id, but for the one made under "/". */
  ghost predicate KeysFit(locations: map<string, Location>) {
    forall key :: key in locations ==> locations[key].id == key || (key == "/" && locations[key] == Unconfigured())
  }

  lemma {:induction false} ResolvedFits(key: string, uri: string, before: map<string, Location>, after: map<string, Location>)
    requires Resolved(key, uri, before, after) && KeysFit(before)
    ensures KeysFit(after) && (uri != "" ==> after[key].id <= uri)
  {
  }

  lemma {:induction false} FirstKey(uri: string)
    ensures KeyAt(uri, 0) == uri
  {
  }

  lemma {:induction false} Identified(key: string, uri: string, before: map<string, Location>, after: map<string, Location>)
    requires Resolved(key, uri, before, after)
    ensures KeysFit(before) ==> KeysFit(after) && (uri != "" ==> after[key].id <= uri)
  {
    if KeysFit(before) {
      ResolvedFits(key, uri, before, after);
    }
  }

  /** A configuration that has been read is orderly in this sense. */
  lemma ReadKeysFit(locations: map<string, Location>)
    requires KeysAreIds(locations)
    ensures KeysFit(locations)
  {
  }

  class Resolver {
    var locations: map<string, Location>

    constructor (locations: map<string, Location>)
      ensures this.locations == locations
    {
      this.locations := locations;
    }

    /** The longest configured ancestor of the URI, else the location of "/". Where the
        server comes to a key that it will try for ever, `hangs` is returned instead. */
    method FindLocationInfo(uri: string) returns (key: string, hangs: bool)
      modifies this
      ensures hangs <==> !LoopEnds(uri, old(locations))
      ensures hangs ==> locations == old(locations)
      ensures !hangs ==> Resolved(key, uri, old(locations), locations)
      ensures KeysFit(old(locations)) ==> KeysFit(locations)
      ensures !hangs && KeysFit(old(locations)) && uri != "" ==> locations[key].id <= uri
    {
      hide KeyAt, KeysFit;
      FirstKey(uri);
      key, hangs := uri, false;
      ghost var n := 0;
      while key != "/" && key != ""
        invariant locations == old(locations) && !hangs
        invariant Ancestor(key, uri) && key == KeyAt(uri, n)
        invariant forall i :: 0 <= i < n ==> !StopsAt(KeyAt(uri, i), locations)
        invariant forall k :: Candidate(k, uri, locations) ==> |k| <= |key|
        decreases |key|
      {
        if key in locations {
          assert StopsAt(KeyAt(uri, n), locations);
          Identified(key, uri, locations, locations);
          return;
        }
        var cut := LastIndexOf(key, '/');
        NextIsAncestor(key, uri);
        forall k | Candidate(k, uri, locations) ensures |k| < |key| {
          assert k == uri[..|k|] && key == uri[..|key|];
        }
        if cut == -1 {
          forall m: nat ensures !StopsAt(KeyAt(uri, m), locations) {
            if m >= n {
              SameKeyAgain(uri, n, m);
            }
          }
          return key, true;
        }
        KeyAtNext(uri, n);
        key := key[..cut];
        n := n + 1;
      }
      assert StopsAt(KeyAt(uri, n), locations);
      key := "/";
      if key !in locations {
        locations := locations[key := Unconfigured()];
      }
      Identified(key, uri, old(locations), locations);
    }
  }
}

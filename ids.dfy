/**
 * Namespaced ids (`namespace:path/to/thing.ext`) and `resolveID`
 * (src/index.js:107-113), which checks an id against a regular expression and
 * turns it into a path inside the datapack tree.
 *
 * The regular expression
 *   ^([a-z][a-z0-9_]*:)?[a-z][a-z0-9_]*(\/[a-z][a-z0-9_]*)*(\.[a-z][a-z0-9_]*)?$
 * is modelled twice: as the finite automaton a regex engine runs (`MatchesIdPattern`)
 * and as the structure `resolveID` relies on, written with `split` (`ValidId`). The
 * lemma `MatchesIdPatternIsValidId` proves the two agree on every string.
 */
module Ids {

  import opened Outcomes
  import opened Strings

  predicate IsLower(c: char) { 'a' <= c <= 'z' }

  /** `[a-z0-9_]`. */
  predicate IsNameChar(c: char) { IsLower(c) || IsDigit(c) || c == '_' }

  predicate NameTail(s: string) { forall i :: 0 <= i < |s| ==> IsNameChar(s[i]) }

  /** `[a-z][a-z0-9_]*`. */
  predicate IsName(s: string) { |s| > 0 && IsLower(s[0]) && NameTail(s[1..]) }

  /** `[a-z][a-z0-9_]*(\/[a-z][a-z0-9_]*)*`: names separated by slashes. */
  predicate IsPath(s: string)
  {
    var ps := Split(s, '/');
    forall i :: 0 <= i < |ps| ==> IsName(ps[i])
  }

  /** A path with an optional `.ext` extension. */
  predicate IsLocation(s: string)
  {
    var ds := Split(s, '.');
    |ds| <= 2 && IsPath(ds[0]) && (|ds| == 2 ==> IsName(ds[1]))
  }

  /** A namespaced id: an optional `namespace:` and a location. */
  predicate ValidId(id: string)
  {
    var parts := Split(id, ':');
    |parts| <= 2 && (|parts| == 2 ==> IsName(parts[0])) && IsLocation(parts[|parts| - 1])
  }

  /** The states of the automaton for the id pattern: before the first letter, inside the
      first name (namespace or first segment), after a `:` or `/`, inside a later segment,
      after the `.`, inside the extension. */
  datatype Phase = Start | InFirst | NeedSegment | InSegment | NeedExtension | InExtension

  function Step(p: Phase, c: char): Option<Phase>
  {
    match p
    case Start => if IsLower(c) then Some(InFirst) else None
    case InFirst =>
      if IsNameChar(c) then Some(InFirst)
      else if c == ':' || c == '/' then Some(NeedSegment)
      else if c == '.' then Some(NeedExtension)
      else None
    case NeedSegment => if IsLower(c) then Some(InSegment) else None
    case InSegment =>
      if IsNameChar(c) then Some(InSegment)
      else if c == '/' then Some(NeedSegment)
      else if c == '.' then Some(NeedExtension)
      else None
    case NeedExtension => if IsLower(c) then Some(InExtension) else None
    case InExtension => if IsNameChar(c) then Some(InExtension) else None
  }

  predicate Accepting(p: Phase) { p == InFirst || p == InSegment || p == InExtension }

  /** Runs the automaton from `p` over `s`. */
  predicate Scan(p: Phase, s: string)
    decreases |s|
  {
    if |s| == 0 then Accepting(p)
    else match Step(p, s[0])
         case None => false
         case Some(q) => Scan(q, s[1..])
  }

  /** The regular expression's `test(id)`. */
  predicate MatchesIdPattern(id: string)
  {
    Scan(Start, id)
  }

  // What each state accepts, stated with `split`.

  /** The rest of a segment, further segments and an optional extension. */
  predicate PathTail(x: string)
  {
    var ps := Split(x, '/');
    NameTail(ps[0]) && forall i :: 1 <= i < |ps| ==> IsName(ps[i])
  }

  predicate SegmentTail(s: string)
  {
    var ds := Split(s, '.');
    |ds| <= 2 && PathTail(ds[0]) && (|ds| == 2 ==> IsName(ds[1]))
  }

  predicate FirstTail(s: string)
  {
    var parts := Split(s, ':');
    |parts| <= 2
    && (|parts| == 1 ==> SegmentTail(s))
    && (|parts| == 2 ==> NameTail(parts[0]) && IsLocation(parts[1]))
  }

  lemma {:induction false} SplitHasSeparator(t: string, d: char)
    requires d in t
    ensures |Split(t, d)| >= 2
    decreases |t|
  {
    if t[0] != d {
      SplitHasSeparator(t[1..], d);
    }
  }

  lemma NameTailAvoids(s: string, c: char)
    requires NameTail(s) && !IsNameChar(c)
    ensures c !in s
  {
  }

  lemma SplitPiecesAvoid(s: string, d: char, c: char)
    requires c != d
    requires forall i :: 0 <= i < |Split(s, d)| ==> c !in Split(s, d)[i]
    ensures c !in s
  {
    JoinAvoids(Split(s, d), [d], c);
    JoinSplit(s, d);
  }

  /** A location holds no `:`, so an id splits on `:` at the namespace alone. */
  lemma LocationAvoidsColon(s: string)
    requires IsLocation(s)
    ensures ':' !in s
  {
    var ds := Split(s, '.');
    PathAvoidsColon(ds[0]);
    forall i | 0 <= i < |ds| ensures ':' !in ds[i] {
      if i == 1 { assert IsName(ds[1]); }
    }
    SplitPiecesAvoid(s, '.', ':');
  }

  /** A path holds no `:`. */
  lemma PathAvoidsColon(s: string)
    requires IsPath(s)
    ensures ':' !in s
  {
    var ps := Split(s, '/');
    forall i | 0 <= i < |ps| ensures ':' !in ps[i] {
      assert IsName(ps[i]);
    }
    SplitPiecesAvoid(s, '/', ':');
  }

  lemma NameTailCons(c: char, x: string)
    ensures NameTail([c] + x) <==> IsNameChar(c) && NameTail(x)
  {
    var y := [c] + x;
    assert y[0] == c;
    if NameTail(y) {
      forall i | 0 <= i < |x| ensures IsNameChar(x[i]) { assert x[i] == y[i + 1]; }
    }
    if IsNameChar(c) && NameTail(x) {
      forall i | 0 <= i < |y| ensures IsNameChar(y[i]) { if i > 0 { assert y[i] == x[i - 1]; } }
    }
  }

  /** A path starting with a letter: the letter, then what `PathTail` accepts. */
  lemma IsPathCons(c: char, x: string)
    requires c != '/'
    ensures IsPath([c] + x) <==> IsLower(c) && PathTail(x)
  {
    var ps := Split(x, '/');
    SplitCons(c, x, '/');
    var ps' := Split([c] + x, '/');
    assert ps'[0][1..] == ps[0];
    if IsLower(c) && PathTail(x) {
      forall i | 0 <= i < |ps'| ensures IsName(ps'[i]) {
        if i == 0 { assert ps'[0] == [c] + ps[0]; } else { assert ps'[i] == ps[i]; }
      }
    }
    if IsPath([c] + x) {
      assert IsName(ps'[0]);
      forall i | 1 <= i < |ps| ensures IsName(ps[i]) {
        assert ps'[i] == ps[i];
      }
    }
  }

  lemma PathTailCons(c: char, x: string)
    requires IsNameChar(c)
    ensures PathTail([c] + x) <==> PathTail(x)
  {
    var ps := Split(x, '/');
    SplitCons(c, x, '/');
    NameTailCons(c, ps[0]);
  }

  lemma PathTailSlash(x: string)
    ensures PathTail(['/'] + x) <==> IsPath(x)
  {
    var ps := Split(x, '/');
    SplitSeparatorCons(x, '/');
    var ps' := Split(['/'] + x, '/');
    if IsPath(x) {
      forall i | 1 <= i < |ps'| ensures IsName(ps'[i]) {
        assert ps'[i] == ps[i - 1];
      }
    }
    if PathTail(['/'] + x) {
      forall i | 0 <= i < |ps| ensures IsName(ps[i]) {
        assert ps'[i + 1] == ps[i];
      }
    }
  }

  lemma PathTailOther(c: char, x: string)
    requires !IsNameChar(c) && c != '/'
    ensures !PathTail([c] + x)
  {
    SplitCons(c, x, '/');
    NameTailCons(c, Split(x, '/')[0]);
  }

  /** A name character extends the current segment. */
  lemma SegmentTailCons(c: char, t: string)
    requires IsNameChar(c)
    ensures SegmentTail([c] + t) <==> SegmentTail(t)
  {
    var ds := Split(t, '.');
    SplitCons(c, t, '.');
    PathTailCons(c, ds[0]);
  }

  lemma SegmentTailSlash(t: string)
    ensures SegmentTail(['/'] + t) <==> IsLocation(t)
  {
    var ds := Split(t, '.');
    SplitCons('/', t, '.');
    PathTailSlash(ds[0]);
  }

  lemma SegmentTailDot(t: string)
    ensures SegmentTail(['.'] + t) <==> IsName(t)
  {
    SplitSeparatorCons(t, '.');
    assert Split("", '/') == [""];
    if '.' in t {
      SplitHasSeparator(t, '.');
      NameTailAvoidsName(t, '.');
    } else {
      SplitNoSeparator(t, '.');
    }
  }

  lemma NameTailAvoidsName(t: string, c: char)
    requires !IsNameChar(c) && c in t
    ensures !IsName(t)
  {
    var i :| 0 <= i < |t| && t[i] == c;
    if i > 0 {
      assert t[1..][i - 1] == c;
    }
  }

  lemma SegmentTailOther(c: char, t: string)
    requires !IsNameChar(c) && c != '/' && c != '.'
    ensures !SegmentTail([c] + t)
  {
    var ds := Split(t, '.');
    SplitCons(c, t, '.');
    PathTailOther(c, ds[0]);
  }

  /** A location starts with a letter, followed by what `InSegment` accepts. */
  lemma LocationStart(t: string)
    ensures IsLocation(t) <==> |t| > 0 && IsLower(t[0]) && SegmentTail(t[1..])
  {
    if |t| == 0 {
      assert Split("", '/') == [""];
    } else {
      var c, u := t[0], t[1..];
      assert t == [c] + u;
      if c == '.' {
        SplitSeparatorCons(u, '.');
        assert Split("", '/') == [""];
      } else {
        var e := Split(u, '.');
        SplitCons(c, u, '.');
        if c == '/' {
          SplitSeparatorCons(e[0], '/');
        } else {
          IsPathCons(c, e[0]);
        }
      }
    }
  }

  lemma {:induction false} ScanInExtension(s: string)
    ensures Scan(InExtension, s) <==> NameTail(s)
    decreases |s|
  {
    if |s| > 0 {
      ScanInExtension(s[1..]);
    }
  }

  lemma ScanNeedExtension(s: string)
    ensures Scan(NeedExtension, s) <==> IsName(s)
  {
    if |s| > 0 {
      ScanInExtension(s[1..]);
    }
  }

  lemma {:induction false} ScanInSegment(s: string)
    ensures Scan(InSegment, s) <==> SegmentTail(s)
    decreases |s|
  {
    if |s| == 0 {
      assert Split("", '/') == [""];
    } else {
      var c, t := s[0], s[1..];
      assert s == [c] + t;
      if IsNameChar(c) {
        ScanInSegment(t);
        SegmentTailCons(c, t);
      } else if c == '/' {
        ScanNeedSegment(t);
        SegmentTailSlash(t);
      } else if c == '.' {
        ScanNeedExtension(t);
        SegmentTailDot(t);
      } else {
        SegmentTailOther(c, t);
      }
    }
  }

  lemma {:induction false} ScanNeedSegment(s: string)
    ensures Scan(NeedSegment, s) <==> IsLocation(s)
    decreases |s|, 0
  {
    LocationStart(s);
    if |s| > 0 {
      ScanInSegment(s[1..]);
    }
  }

  lemma {:induction false} ScanInFirst(s: string)
    ensures Scan(InFirst, s) <==> FirstTail(s)
    decreases |s|
  {
    if |s| == 0 {
      assert Split("", '/') == [""];
    } else {
      var c, t := s[0], s[1..];
      assert s == [c] + t;
      var P := Split(t, ':');
      if ':' in t {
        SplitHasSeparator(t, ':');
        NameTailAvoidsName(t, ':');
        if IsLocation(t) { LocationAvoidsColon(t); }
      } else {
        SplitNoSeparator(t, ':');
      }
      if c == ':' {
        ScanNeedSegment(t);
        SplitSeparatorCons(t, ':');
      } else {
        SplitCons(c, t, ':');
        NameTailCons(c, P[0]);
        if IsNameChar(c) {
          ScanInFirst(t);
          SegmentTailCons(c, t);
        } else if c == '/' {
          ScanNeedSegment(t);
          SegmentTailSlash(t);
        } else if c == '.' {
          ScanNeedExtension(t);
          SegmentTailDot(t);
        } else {
          SegmentTailOther(c, t);
        }
      }
    }
  }

  /** The automaton accepts exactly the ids with the namespace/path/extension structure. */
  lemma MatchesIdPatternIsValidId(id: string)
    ensures MatchesIdPattern(id) <==> ValidId(id)
  {
    if |id| == 0 {
      assert Split("", '/') == [""];
    } else {
      var c, t := id[0], id[1..];
      assert id == [c] + t;
      LocationStart(id);
      if c == ':' {
        SplitSeparatorCons(t, ':');
      } else {
        var P := Split(t, ':');
        SplitCons(c, t, ':');
        assert IsName([c] + P[0]) <==> IsLower(c) && NameTail(P[0]) by {
          assert ([c] + P[0])[1..] == P[0];
        }
        if |P| == 1 {
          SplitNoSeparatorConverse(t, ':');
          assert Split(id, ':') == [id];
        }
        if IsLower(c) {
          ScanInFirst(t);
        }
      }
    }
  }

  lemma SplitNoSeparatorConverse(t: string, d: char)
    requires |Split(t, d)| == 1
    ensures Split(t, d) == [t]
  {
    if d in t {
      SplitHasSeparator(t, d);
    } else {
      SplitNoSeparator(t, d);
    }
  }

  lemma ColonFreeSplit(id: string)
    ensures ':' !in id ==> Split(id, ':') == [id]
  {
    if ':' !in id { SplitNoSeparator(id, ':'); }
  }

  /** `path.join` of path segments, without its normalisation of `.`, `..` and `//`. */
  function PathJoin(segments: seq<string>): string
  {
    Join(segments, "/")
  }

  lemma PathJoinFour(a: string, b: string, c: string, d: string)
    ensures PathJoin([a, b, c, d]) == a + "/" + b + "/" + c + "/" + d
  {
    assert [c, d][1..] == [d];
    assert Join([c, d], "/") == c + "/" + d;
    assert [b, c, d][1..] == [c, d];
    assert Join([b, c, d], "/") == b + "/" + c + "/" + d;
    assert [a, b, c, d][1..] == [b, c, d];
  }

  /**
   * `resolveID(type, id, ext, root)`, with `type` named `folder` (src/index.js:107-113). An id that fails the pattern
   * is an error naming it; a valid id without a namespace is placed under `minecraft`; the
   * default extension `ext` is appended only when the id has none of its own. For an id
   * that passed the pattern, `path.extname(id)` is non-empty exactly when the id holds a `.`.
   */
  function ResolveId(folder: string, id: string, ext: string, root: string): (r: Result<string>)
    ensures r.Err? <==> !ValidId(id)
    ensures r.Err? ==> r.error == Error(PlainError, "invalid namespaced id \"" + id + "\"")
    ensures ValidId(id) && ':' !in id ==>
              r == Ok(root + "/" + "minecraft" + "/" + folder + "/" + id + (if '.' in id then "" else ext))
  {
    MatchesIdPatternIsValidId(id);
    if !MatchesIdPattern(id) then Err(Error(PlainError, "invalid namespaced id \"" + id + "\""))
    else
      var parts := Split(id, ':');
      var full := if |parts| < 2 then ["minecraft"] + parts else parts;
      ColonFreeSplit(id);
      PathJoinFour(root, full[0], folder, full[1]);
      Ok(PathJoin([root, full[0], folder, full[1]]) + (if '.' in id then "" else ext))
  }

  /** A namespaced id resolves under its own namespace. */
  lemma ResolveNamespaced(folder: string, ns: string, loc: string, ext: string, root: string)
    requires IsName(ns) && IsLocation(loc)
    ensures ValidId(ns + ":" + loc)
    ensures ResolveId(folder, ns + ":" + loc, ext, root)
         == Ok(root + "/" + ns + "/" + folder + "/" + loc + (if '.' in loc then "" else ext))
  {
    var id := ns + ":" + loc;
    assert ':' !in ns by { NameTailAvoids(ns[1..], ':'); assert ns == [ns[0]] + ns[1..]; }
    LocationAvoidsColon(loc);
    SplitAtSeparator(ns, loc, ':');
    assert ns + [':'] + loc == id;
    SplitNoSeparator(loc, ':');
    assert Split(id, ':') == [ns, loc];
    assert ValidId(id);
    MatchesIdPatternIsValidId(id);
    PathJoinFour(root, ns, folder, loc);
    assert '.' in id <==> '.' in loc by {
      assert '.' !in ns by { NameTailAvoids(ns[1..], '.'); assert ns == [ns[0]] + ns[1..]; }
      assert forall c :: c in id <==> c in ns || c == ':' || c in loc;
    }
  }

  /** An id without a namespace lands under `minecraft`, with the default extension. */
  lemma ResolveExample()
    ensures ResolveId("tags/items", "foo", ".json", "data") == Ok("data/minecraft/tags/items/foo.json")
    ensures ResolveId("tags/items", "Foo", ".json", "data").Err?
  {
    MatchesIdPatternIsValidId("foo");
    assert MatchesIdPattern("foo");
    assert ':' !in "foo" && '.' !in "foo";
    assert "data" + "/" + "minecraft" + "/" + "tags/items" + "/" + "foo" + ".json"
        == "data/minecraft/tags/items/foo.json";
    MatchesIdPatternIsValidId("Foo");
    assert !MatchesIdPattern("Foo");
  }
}

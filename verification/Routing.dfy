/**
 Placing a Redis key: glob routes choose the Aerospike set and strip the literal parts of a single-star
 pattern from the key (redis_to_aerospike/set_routing.py).
 */
module Routing {
  import opened Models
  import opened Sequences
  import Utf8

  datatype HashStrategy = MapBin | FieldBins

  datatype Route = Route(pattern: string, destination: string, hashStrategy: Option<HashStrategy>,
          valueBin: Option<string>)

  /** `classes` decides patterns that contain a bracket; such patterns never rewrite the key. */
  datatype Router = Router(routes: seq<Route>, defaultSet: string, classes: (string, string) -> bool)

  datatype Resolution = Resolution(setName: string, key: UserKey, hashStrategy: Option<HashStrategy>,
          valueBin: Option<string>)

  // ----- Globs -----

  /** Case-sensitive matching of `*`, `?` and literals. */
  predicate Glob(key: string, pattern: string)
    decreases |key| + |pattern|
  {
    if pattern == "" then key == ""
    else if pattern[0] == '*' then Glob(key, pattern[1..]) || (key != "" && Glob(key[1..], pattern))
    else key != "" && (pattern[0] == '?' || pattern[0] == key[0]) && Glob(key[1..], pattern[1..])
  }

  predicate Matches(router: Router, key: string, pattern: string) {
    if '[' in pattern then router.classes(key, pattern) else Glob(key, pattern)
  }

  predicate StartsWith(s: string, prefix: string) { prefix <= s }

  predicate EndsWith(s: string, suffix: string) { |suffix| <= |s| && s[|s|-|suffix|..] == suffix }

  predicate Literal(s: string) { '*' !in s && '?' !in s && '[' !in s }

  lemma {:induction false} GlobLiteralPrefix(key: string, left: string, rest: string)
    requires Literal(left)
    ensures Glob(key, left + rest) <==> StartsWith(key, left) && Glob(key[|left|..], rest)
  {
    if left == "" {
      assert left + rest == rest && key[0..] == key;
    } else {
      assert (left + rest)[1..] == left[1..] + rest;
      assert left[0] in left;
      if key != "" && key[0] == left[0] {
        GlobLiteralPrefix(key[1..], left[1..], rest);
        if |left| <= |key| { assert key[1..][|left|-1..] == key[|left|..]; }
        assert StartsWith(key, left) <==> StartsWith(key[1..], left[1..]) by {
          assert key == [key[0]] + key[1..] && left == [left[0]] + left[1..];
        }
      }
    }
  }

  lemma GlobLiteral(key: string, right: string)
    requires Literal(right)
    ensures Glob(key, right) <==> key == right
  {
    assert right + "" == right;
    GlobLiteralPrefix(key, right, "");
  }

  lemma {:induction false} GlobStar(key: string, right: string)
    requires Literal(right)
    ensures Glob(key, "*" + right) <==> EndsWith(key, right)
  {
    assert ("*" + right)[1..] == right;
    GlobLiteral(key, right);
    if key == "" {
      assert EndsWith(key, right) <==> right == "";
    } else {
      GlobStar(key[1..], right);
      if |right| < |key| {
        assert key[1..][|key|-1-|right|..] == key[|key|-|right|..];
      }
      assert EndsWith(key, right) <==> key == right || EndsWith(key[1..], right);
    }
  }

  /** A single-star pattern matches exactly the keys with its prefix, its suffix and room for both. */
  lemma SingleStarMatch(key: string, left: string, right: string)
    requires Literal(left) && Literal(right)
    ensures Glob(key, left + "*" + right) <==>
              StartsWith(key, left) && EndsWith(key, right) && |left| + |right| <= |key|
  {
    assert left + "*" + right == left + ("*" + right);
    GlobLiteralPrefix(key, left, "*" + right);
    if StartsWith(key, left) {
      GlobStar(key[|left|..], right);
      EndsBeyond(key, |left|, right);
    }
  }

  lemma EndsBeyond(key: string, n: nat, right: string)
    requires n <= |key|
    ensures EndsWith(key[n..], right) <==> EndsWith(key, right) && n + |right| <= |key|
  {
    if n + |right| <= |key| {
      assert key[n..][|key|-n-|right|..] == key[|key|-|right|..];
    }
  }

  // ----- What a glob means -----

  /** What one character of a pattern stands for: anything, any one character, or itself. */
  predicate StandsFor(c: char, part: string) {
    c == '*' || (|part| == 1 && (c == '?' || part[0] == c))
  }

  /** The key, cut into one part for each character of the pattern. */
  predicate Spells(key: string, pattern: string, parts: seq<string>) {
    |parts| == |pattern| && Flatten(parts) == key && forall i :: 0 <= i < |parts| ==> StandsFor(pattern[i], parts[i])
  }

  lemma FlattenFirst(first: string, rest: seq<string>)
    ensures Flatten([first] + rest) == first + Flatten(rest)
  {
    FlattenConcat([first], rest);
    assert [first][..0] == [] && Flatten([first]) == first;
  }

  lemma SpellsMore(key: string, pattern: string, first: string, rest: seq<string>)
    requires pattern != "" && StandsFor(pattern[0], first) && first <= key
    requires Spells(key[|first|..], pattern[1..], rest)
    ensures Spells(key, pattern, [first] + rest)
  {
    FlattenFirst(first, rest);
  }

  lemma {:induction false} GlobSpells(key: string, pattern: string) returns (parts: seq<string>)
    requires Glob(key, pattern)
    ensures Spells(key, pattern, parts)
    decreases |key| + |pattern|
  {
    if pattern == "" {
      parts := [];
    } else if pattern[0] != '*' {
      parts := GlobSpells(key[1..], pattern[1..]);
      SpellsMore(key, pattern, key[..1], parts);
      parts := [key[..1]] + parts;
    } else if Glob(key, pattern[1..]) {
      parts := GlobSpells(key, pattern[1..]);
      SpellsMore(key, pattern, "", parts);
      parts := [""] + parts;
    } else {
      parts := GlobSpells(key[1..], pattern);
      var first, rest := parts[0], parts[1..];
      assert parts == [first] + rest;
      FlattenFirst(first, rest);
      assert key[1..] == first + Flatten(rest);
      assert key[1 + |first|..] == Flatten(rest) && key[..1] + first <= key;
      SpellsMore(key, pattern, key[..1] + first, rest);
      parts := [key[..1] + first] + rest;
    }
  }

  lemma {:induction false} SpelledGlobs(key: string, pattern: string, parts: seq<string>)
    requires Spells(key, pattern, parts)
    ensures Glob(key, pattern)
    decreases |key| + |pattern|
  {
    if pattern != "" {
      var first, rest := parts[0], parts[1..];
      assert parts == [first] + rest;
      FlattenFirst(first, rest);
      if pattern[0] == '*' && first != "" {
        FlattenFirst(first[1..], rest);
        assert key[1..] == first[1..] + Flatten(rest);
        SpelledGlobs(key[1..], pattern, [first[1..]] + rest);
      } else {
        assert key[|first|..] == Flatten(rest);
        SpelledGlobs(key[|first|..], pattern[1..], rest);
      }
    }
  }

  /** A key matches exactly when it can be cut into parts that the pattern's characters stand for. */
  lemma GlobMeaning(key: string, pattern: string)
    ensures Glob(key, pattern) <==> exists parts :: Spells(key, pattern, parts)
  {
    if Glob(key, pattern) { var parts := GlobSpells(key, pattern); }
    if parts :| Spells(key, pattern, parts) { SpelledGlobs(key, pattern, parts); }
  }

  /** Without a bracket a pattern matches as a glob. */
  lemma MatchMeaning(router: Router, key: string, pattern: string)
    requires '[' !in pattern
    ensures Matches(router, key, pattern) <==> exists parts :: Spells(key, pattern, parts)
  {
    GlobMeaning(key, pattern);
  }

  // ----- Stripping -----

  function Stars(pattern: string): nat {
    if pattern == "" then 0 else (if pattern[0] == '*' then 1 else 0) + Stars(pattern[1..])
  }

  function StarAt(pattern: string): (i: nat)
    requires '*' in pattern
    ensures i < |pattern| && pattern[i] == '*' && '*' !in pattern[..i]
  {
    if pattern[0] == '*' then 0 else 1 + StarAt(pattern[1..])
  }

  predicate Strippable(pattern: string) {
    Stars(pattern) == 1 && '?' !in pattern && '[' !in pattern
  }

  lemma {:induction false} NoStars(pattern: string)
    ensures Stars(pattern) == 0 <==> '*' !in pattern
  {
    if pattern != "" { NoStars(pattern[1..]); }
  }

  lemma {:induction false} OneStar(pattern: string)
    requires Stars(pattern) == 1
    ensures '*' in pattern && '*' !in pattern[StarAt(pattern)+1..]
  {
    NoStars(pattern);
    NoStars(pattern[1..]);
    if pattern[0] != '*' {
      OneStar(pattern[1..]);
      assert pattern[1..][StarAt(pattern[1..])+1..] == pattern[StarAt(pattern)+1..];
    }
  }

  function Left(pattern: string): string
    requires '*' in pattern
  {
    pattern[..StarAt(pattern)]
  }

  function Right(pattern: string): string
    requires '*' in pattern
  {
    pattern[StarAt(pattern)+1..]
  }

  lemma SplitPattern(pattern: string)
    requires Strippable(pattern)
    ensures '*' in pattern && pattern == Left(pattern) + "*" + Right(pattern)
    ensures Literal(Left(pattern)) && Literal(Right(pattern))
  {
    OneStar(pattern);
  }

  /** Python slicing `s[i:j]` for nonnegative bounds: bounds past the end are clamped, a crossed range is empty. */
  function Slice(s: string, i: nat, j: nat): string {
    var hi := if j < |s| then j else |s|;
    if i < hi then s[i..hi] else ""
  }

  /** The Aerospike user key for a key routed by `pattern`. */
  function StrippedKey(router: Router, key: string, pattern: string): string {
    if Stars(pattern) != 1 then key
    else if '?' in pattern || '[' in pattern then key
    else
      OneStar(pattern);
      var left, right := Left(pattern), Right(pattern);
      if !Matches(router, key, pattern) then key
      else if right == "" then NonEmpty(Slice(key, |left|, |key|), key)
      else if left == "" then
        if !EndsWith(key, right) then key else NonEmpty(Slice(key, 0, |key| - |right|), key)
      else
        if !(StartsWith(key, left) && EndsWith(key, right)) then key
        else NonEmpty(Slice(key, |left|, |key| - |right|), key)
  }

  function NonEmpty(body: string, key: string): string { if body != "" then body else key }

  /** Strip round trip: for a matching single-star pattern the user key is a non-empty body that the literals complete
      to the Redis key, or the whole key when the body is empty; every other pattern keeps the whole key. */
  lemma StripRoundTrip(router: Router, key: string, pattern: string)
    ensures Strippable(pattern) && Matches(router, key, pattern) ==>
              '*' in pattern
              && var left, right, out := Left(pattern), Right(pattern), StrippedKey(router, key, pattern);
                 if key == left + right then out == key else out != "" && left + out + right == key
    ensures !(Strippable(pattern) && Matches(router, key, pattern)) ==> StrippedKey(router, key, pattern) == key
  {
    if Strippable(pattern) && Matches(router, key, pattern) {
      SplitPattern(pattern);
      var left, right := Left(pattern), Right(pattern);
      SingleStarMatch(key, left, right);
      var body := key[|left|..|key|-|right|];
      assert key == left + body + right by {
        assert key[..|left|] == left && key[|key|-|right|..] == right;
      }
      assert StrippedKey(router, key, pattern) == NonEmpty(body, key);
      assert key == left + right <==> body == "" by {
        assert |left + right| == |left| + |right|;
        if body == "" { assert left + body + right == left + right; }
      }
    }
  }

  lemma {:induction false} SingleStarParts(left: string, right: string)
    requires Literal(left) && Literal(right)
    ensures var p := left + "*" + right; Strippable(p) && '*' in p && Left(p) == left && Right(p) == right
  {
    var p := left + "*" + right;
    if left == "" {
      assert p[1..] == right;
      NoStars(right);
    } else {
      assert left[0] in left && p[0] == left[0] && p[1..] == left[1..] + "*" + right;
      assert Literal(left[1..]) by { assert forall c :: c in left[1..] ==> c in left; }
      SingleStarParts(left[1..], right);
      assert StarAt(p) == |left|;
    }
    assert p[|left|] == '*';
  }

  /** The literals of a single-star pattern are taken off, unless nothing else is there. */
  lemma StripGivesBody(router: Router, left: string, body: string, right: string)
    requires Literal(left) && Literal(right)
    ensures StrippedKey(router, left + body + right, left + "*" + right) == if body != "" then body else left + right
  {
    var key, p := left + body + right, left + "*" + right;
    SingleStarParts(left, right);
    assert '[' !in p;
    assert key[|key|-|right|..] == right && left <= key;
    SingleStarMatch(key, left, right);
    StripRoundTrip(router, key, p);
    if body == "" {
      assert key == left + right;
    } else {
      assert |key| > |left + right|;
      Uncover(left, StrippedKey(router, key, p), body, right);
    }
  }

  /** A pattern that is not two literals around one star takes nothing off. */
  lemma StripKeepsWhole(router: Router, key: string, pattern: string)
    requires forall left, right :: Literal(left) && Literal(right) ==> pattern != left + "*" + right
    ensures StrippedKey(router, key, pattern) == key
  {
    if Strippable(pattern) { SplitPattern(pattern); }
    StripRoundTrip(router, key, pattern);
  }

  // ----- First match wins -----

  /** The index of the first matching route, or the number of routes. */
  function FirstMatch(router: Router, key: string, from: nat): (i: nat)
    requires from <= |router.routes|
    ensures from <= i <= |router.routes|
    ensures forall j :: from <= j < i ==> !Matches(router, key, router.routes[j].pattern)
    ensures i < |router.routes| ==> Matches(router, key, router.routes[i].pattern)
    decreases |router.routes| - from
  {
    if from == |router.routes| || Matches(router, key, router.routes[from].pattern) then from
    else FirstMatch(router, key, from + 1)
  }

  function Resolve(router: Router, key: UserKey): Resolution {
    if router.routes == [] || key.BinaryKey? then Resolution(router.defaultSet, key, None, None)
    else
      var i := FirstMatch(router, key.text, 0);
      if i == |router.routes| then Resolution(router.defaultSet, key, None, None)
      else
        var route := router.routes[i];
        Resolution(route.destination, TextKey(StrippedKey(router, key.text, route.pattern)), route.hashStrategy,
              route.valueBin)
  }

  /** Route `i` matches the key and no earlier route does. */
  predicate TakenBy(router: Router, key: UserKey, i: int) {
    && 0 <= i < |router.routes| && key.TextKey? && Matches(router, key.text, router.routes[i].pattern)
    && forall j :: 0 <= j < i ==> !Matches(router, key.text, router.routes[j].pattern)
  }

  /** No route matches the key; none ever matches raw bytes. */
  predicate TakenByNone(router: Router, key: UserKey) {
    key.TextKey? ==> forall j :: 0 <= j < |router.routes| ==> !Matches(router, key.text, router.routes[j].pattern)
  }

  /** The first matching route decides the set, the hash layout and the bin, and its pattern the user key. Without one
      the key goes whole to the default set with no overrides. */
  lemma ResolveMeaning(router: Router, key: UserKey)
    ensures forall i :: TakenBy(router, key, i) ==>
              var route := router.routes[i];
              Resolve(router, key)
                == Resolution(route.destination, TextKey(StrippedKey(router, key.text, route.pattern)),
                              route.hashStrategy, route.valueBin)
    ensures TakenByNone(router, key) ==> Resolve(router, key) == Resolution(router.defaultSet, key, None, None)
    ensures TakenByNone(router, key) || exists i :: TakenBy(router, key, i)
  {
    if key.TextKey? {
      var first := FirstMatch(router, key.text, 0);
      assert first < |router.routes| ==> TakenBy(router, key, first);
      assert forall i :: TakenBy(router, key, i) ==> i == first;
    }
  }

  /** The set and user key a record ends up under once the migrator and the sink have applied the resolution: the
      migrator overrides the set when it differs from the default, the sink ignores an empty override. */
  function Placement(router: Router, key: UserKey): (string, UserKey) {
    var r := Resolve(router, key);
    (if r.setName == "" then router.defaultSet else r.setName, r.key)
  }

  // ----- Collisions -----

  /** Destinations are named, differ from each other and from the default set. */
  ghost predicate DistinctDestinations(router: Router) {
    && (forall i :: 0 <= i < |router.routes| ==>
          router.routes[i].destination != "" && router.routes[i].destination != router.defaultSet)
    && (forall i, j :: 0 <= i < j < |router.routes| ==> router.routes[i].destination != router.routes[j].destination)
  }

  /** The pair the empty-body fallback creates: both keys are taken by one single-star route L*R, one is L+R and the
      other L+L+R+R. */
  ghost predicate FallbackPair(router: Router, k1: UserKey, k2: UserKey) {
    && k1.TextKey? && k2.TextKey?
    && var i := FirstMatch(router, k1.text, 0);
       && i < |router.routes| && FirstMatch(router, k2.text, 0) == i
       && var p := router.routes[i].pattern;
          && Strippable(p) && '*' in p
          && var l, r := Left(p), Right(p);
             l + r != "" && k1.text == l + r && k2.text == l + l + r + r
  }

  lemma SameRouteCollision(router: Router, a: string, b: string, pattern: string)
    requires Matches(router, a, pattern) && Matches(router, b, pattern) && a != b
    ensures StrippedKey(router, a, pattern) == StrippedKey(router, b, pattern) <==>
              Strippable(pattern) && '*' in pattern
              && var l, r := Left(pattern), Right(pattern);
                 l + r != "" && ((a == l + r && b == l + l + r + r) || (b == l + r && a == l + l + r + r))
  {
    StripRoundTrip(router, a, pattern);
    StripRoundTrip(router, b, pattern);
    if Strippable(pattern) {
      SplitPattern(pattern);
      StrippedCollision(Left(pattern), Right(pattern), a, b, StrippedKey(router, a, pattern),
            StrippedKey(router, b, pattern));
    }
  }

  /** `x` is what stripping the literals `l` and `r` leaves of `a`. */
  predicate Stripped(l: string, r: string, a: string, x: string) {
    if a == l + r then x == a else x != "" && l + x + r == a
  }

  lemma StrippedCollision(l: string, r: string, a: string, b: string, x: string, y: string)
    requires Stripped(l, r, a, x) && Stripped(l, r, b, y) && a != b
    ensures x == y <==> l + r != "" && ((a == l + r && b == l + l + r + r) || (b == l + r && a == l + l + r + r))
  {
    assert l + (l + r) + r == l + l + r + r;
    Uncover(l, x, y, r);
    Uncover(l, y, l + r, r);
    Uncover(l, x, l + r, r);
    assert |l + l + r + r| == 2 * |l + r|;
  }

  lemma Uncover(l: string, x: string, y: string, r: string)
    ensures l + x + r == l + y + r <==> x == y
  {
    if l + x + r == l + y + r {
      assert x == (l + x + r)[|l|..|l|+|x|];
      assert y == (l + y + r)[|l|..|l|+|y|];
    }
  }

  /** The literals that placing a text key takes off: those of its route, unless they are the whole key. */
  function Removed(router: Router, key: string): (string, string) {
    var i := FirstMatch(router, key, 0);
    if i == |router.routes| || !Strippable(router.routes[i].pattern) then ("", "")
    else
      var p := router.routes[i].pattern;
      OneStar(p);
      if key == Left(p) + Right(p) then ("", "") else (Left(p), Right(p))
  }

  /** `body` is what is left of `key` without the literals of its own route. */
  predicate BodyOf(router: Router, key: string, body: string) {
    Removed(router, key).0 + body + Removed(router, key).1 == key
  }

  lemma PlacedBody(router: Router, key: string, body: string)
    ensures BodyOf(router, key, body) <==> Placement(router, TextKey(key)).1 == TextKey(body)
  {
    var i := FirstMatch(router, key, 0);
    var (l, r) := Removed(router, key);
    assert "" + body + "" == body;
    if i < |router.routes| {
      var p := router.routes[i].pattern;
      StripRoundTrip(router, key, p);
      Uncover(l, body, StrippedKey(router, key, p), r);
    }
  }

  /** For any router, two keys are placed under one record key if and only if their sets are the same and they are the
      same key, or texts in which the literals of each one's own route enclose the same body. */
  lemma CollisionsOfAnyRouter(router: Router, k1: UserKey, k2: UserKey)
    ensures Placement(router, k1) == Placement(router, k2) <==>
              Placement(router, k1).0 == Placement(router, k2).0
              && (k1 == k2 || (k1.TextKey? && k2.TextKey?
                               && exists body :: BodyOf(router, k1.text, body) && BodyOf(router, k2.text, body)))
  {
    if k1.TextKey? && k2.TextKey? {
      forall body
        ensures BodyOf(router, k1.text, body) <==> Placement(router, k1).1 == TextKey(body)
        ensures BodyOf(router, k2.text, body) <==> Placement(router, k2).1 == TextKey(body)
      {
        PlacedBody(router, k1.text, body);
        PlacedBody(router, k2.text, body);
      }
      assert Placement(router, k1).1.TextKey?;
      assert BodyOf(router, k1.text, Placement(router, k1).1.text);
    }
  }

  /** Two distinct Redis keys are placed under one record key exactly when they are a fallback pair. */
  lemma CollisionsCharacterised(router: Router, k1: UserKey, k2: UserKey)
    requires DistinctDestinations(router) && k1 != k2
    ensures Placement(router, k1) == Placement(router, k2) <==>
              FallbackPair(router, k1, k2) || FallbackPair(router, k2, k1)
  {
    if k1.TextKey? && k2.TextKey? {
      var i, j := FirstMatch(router, k1.text, 0), FirstMatch(router, k2.text, 0);
      if i < |router.routes| && j < |router.routes| {
        assert i != j ==> router.routes[i].destination != router.routes[j].destination;
        if i == j {
          SameRouteCollision(router, k1.text, k2.text, router.routes[i].pattern);
        }
      }
    }
  }

  /** The same for the byte strings Redis returns: decoding adds no collisions. */
  lemma ByteKeyCollisions(router: Router, b1: seq<Byte>, b2: seq<Byte>)
    requires DistinctDestinations(router) && b1 != b2
    ensures Placement(router, Utf8.DecodeOrKeep(b1)) == Placement(router, Utf8.DecodeOrKeep(b2)) <==>
              FallbackPair(router, Utf8.DecodeOrKeep(b1), Utf8.DecodeOrKeep(b2)) ||
                    FallbackPair(router, Utf8.DecodeOrKeep(b2), Utf8.DecodeOrKeep(b1))
  {
    Utf8.DecodeOrKeepInjective(b1, b2);
    CollisionsCharacterised(router, Utf8.DecodeOrKeep(b1), Utf8.DecodeOrKeep(b2));
  }

  /** Such pairs exist: with the route `u*` to its own set, the keys `u` and `uu` share a record. */
  lemma FallbackCollides(router: Router)
    requires router.routes == [Route("u*", "users", None, None)] && router.defaultSet == "redis"
    ensures Placement(router, TextKey("u")) == Placement(router, TextKey("uu")) == ("users", TextKey("u"))
  {
    var p := "u*";
    assert p[1..] == "*" && "*"[1..] == "";
    assert Stars(p) == Stars("*") == 1;
    assert StarAt(p) == 1 && Left(p) == "u" && Right(p) == "";
    assert p == "u" + "*" + "";
    SingleStarMatch("u", "u", "");
    SingleStarMatch("uu", "u", "");
    StripRoundTrip(router, "u", p);
    StripRoundTrip(router, "uu", p);
    assert "u" == "u" + "" && "uu" == "u" + "u" + "";
    Uncover("u", StrippedKey(router, "uu", p), "u", "");
  }

  lemma StripLetter(router: Router, x: char)
    requires x == 'a' || x == 'b'
    ensures Matches(router, [x, '1'], [x, '*']) && StrippedKey(router, [x, '1'], [x, '*']) == "1"
  {
    var p, key := [x, '*'], [x, '1'];
    assert p[1..] == "*" && "*"[1..] == "";
    assert Stars(p) == Stars("*") == 1;
    assert StarAt(p) == 1 && Left(p) == [x] && Right(p) == "";
    assert p == [x] + "*" + "" && key == [x] + "1" + "";
    SingleStarMatch(key, [x], "");
    StripRoundTrip(router, key, p);
    Uncover([x], StrippedKey(router, key, p), "1", "");
  }

  /** And destinations have to be distinct: with `a*` and `b*` to one set, `a1` and `b1` share a record. */
  lemma SharedDestinationCollides(router: Router)
    requires router.routes == [Route(['a', '*'], "s", None, None), Route(['b', '*'], "s", None, None)] &&
              router.defaultSet == "redis"
    ensures Placement(router, TextKey(['a', '1'])) == Placement(router, TextKey(['b', '1'])) == ("s", TextKey("1"))
  {
    StripLetter(router, 'a');
    StripLetter(router, 'b');
    assert FirstMatch(router, ['a', '1'], 0) == 0;
    assert !Matches(router, ['b', '1'], ['a', '*']);
    assert FirstMatch(router, ['b', '1'], 0) == FirstMatch(router, ['b', '1'], 1) == 1;
  }
}

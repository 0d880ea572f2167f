// Topic matching (internal/router/router.go): MQTT filters with `+` for one level and `#` for the rest, on
// topics whose leading and trailing slashes are trimmed.
module Router {

  type Levels = seq<string>

  function TrimLeft(s: string): string { if s != [] && s[0] == '/' then TrimLeft(s[1..]) else s }

  function TrimRight(s: string): string {
    if s != [] && s[|s| - 1] == '/' then TrimRight(s[..|s| - 1]) else s
  }

  function Trim(s: string): string { TrimRight(TrimLeft(s)) }

  // strings.Split on "/": always at least one level.
  function Split(s: string): (levels: Levels)
    ensures levels != []
  {
    if s == [] then [""]
    else if s[0] == '/' then [""] + Split(s[1..])
    else var rest := Split(s[1..]); [[s[0]] + rest[0]] + rest[1..]
  }

  function LevelsOf(topic: string): Levels { Split(Trim(topic)) }

  function Join(levels: Levels): string
    requires levels != []
  {
    if |levels| == 1 then levels[0] else levels[0] + "/" + Join(levels[1..])
  }

  // Splitting loses nothing and leaves no slash inside a level.
  lemma {:induction false} SplitJoin(s: string)
    ensures Join(Split(s)) == s
    ensures forall i :: 0 <= i < |Split(s)| ==> '/' !in Split(s)[i]
  {
    if s != [] {
      SplitJoin(s[1..]);
      var rest := Split(s[1..]);
      if s[0] == '/' {
        assert Split(s)[1..] == rest;
        assert s == "/" + s[1..];
      } else {
        var all := Split(s);
        assert all == [[s[0]] + rest[0]] + rest[1..];
        assert all[1..] == rest[1..];
        assert s == [s[0]] + s[1..];
        if |rest| > 1 { assert Join(all) == [s[0]] + Join(rest); }
        forall i | 0 <= i < |all| ensures '/' !in all[i] {
          if i > 0 { assert all[i] == rest[i]; }
        }
      }
    }
  }

  // s is slashes, then t, then slashes.
  ghost predicate Framed(s: string, t: string, left: nat, right: nat) {
    && left <= right <= |s| && t == s[left..right]
    && (forall k :: 0 <= k < left ==> s[k] == '/')
    && (forall k :: right <= k < |s| ==> s[k] == '/')
  }

  predicate Bare(t: string) { t != [] ==> t[0] != '/' && t[|t| - 1] != '/' }

  // Trimming takes slashes off both ends and nothing else.
  lemma TrimExact(s: string)
    ensures exists left: nat, right: nat :: Framed(s, Trim(s), left, right)
    ensures Bare(Trim(s))
    ensures Bare(s) ==> Trim(s) == s
  {
    TrimLeftExact(s);
    TrimRightKeeps(TrimLeft(s));
    var left, right := |s| - |TrimLeft(s)|, |s| - |TrimLeft(s)| + |Trim(s)|;
    assert Framed(s, Trim(s), left, right);
  }

  lemma {:induction false} TrimLeftExact(s: string)
    ensures var t := TrimLeft(s);
            && |t| <= |s| && t == s[|s| - |t|..] && (t != [] ==> t[0] != '/')
            && forall k :: 0 <= k < |s| - |t| ==> s[k] == '/'
    decreases |s|
  {
    if s != [] && s[0] == '/' {
      TrimLeftExact(s[1..]);
      assert forall k :: 1 <= k < |s| ==> s[k] == s[1..][k - 1];
    }
  }

  lemma {:induction false} TrimRightKeeps(s: string)
    ensures var t := TrimRight(s);
            && t <= s && (t != [] ==> t[|t| - 1] != '/')
            && forall k :: |t| <= k < |s| ==> s[k] == '/'
    decreases |s|
  {
    if s != [] && s[|s| - 1] == '/' { TrimRightKeeps(s[..|s| - 1]); }
  }

  // The levels of a topic say everything about it but its outer slashes.
  lemma LevelsJoin(topic: string)
    ensures Join(LevelsOf(topic)) == Trim(topic)
    ensures Bare(topic) ==> Join(LevelsOf(topic)) == topic
  {
    SplitJoin(Trim(topic));
    TrimExact(topic);
  }

  // Section 4.7 of MQTT 3.1.1, level by level.
  predicate Matches(filter: Levels, topic: Levels) {
    if filter == [] then topic == []
    else if filter[0] == "#" then |filter| == 1
    else topic != [] && (filter[0] == "+" || filter[0] == topic[0]) && Matches(filter[1..], topic[1..])
  }

  // Match as written: one index over both level lists.
  method Match(filter: string, topic: string) returns (ok: bool)
    ensures ok == Matches(LevelsOf(filter), LevelsOf(topic))
  {
    ok := MatchLevels(LevelsOf(filter), LevelsOf(topic));
  }

  method MatchLevels(f: Levels, t: Levels) returns (ok: bool)
    ensures ok == Matches(f, t)
  {
    assert f[0..] == f && t[0..] == t;
    for i := 0 to |f|
      invariant i <= |t| && Matches(f, t) == Matches(f[i..], t[i..])
    {
      if f[i] == "#" { return i == |f| - 1; }
      if i >= |t| { return false; }
      if f[i] != "+" && f[i] != t[i] { return false; }
      assert f[i..][1..] == f[i + 1..] && t[i..][1..] == t[i + 1..];
    }
    return |f| == |t|;
  }

  predicate LevelFits(f: string, t: string) { f != "#" && (f == "+" || f == t) }

  // The same without recursion: every filter level fits its topic level, and either the lengths agree or a
  // single final `#` stands for zero or more remaining levels.
  ghost predicate MatchesPointwise(f: Levels, t: Levels) {
    || (|f| == |t| && forall i :: 0 <= i < |f| ==> LevelFits(f[i], t[i]))
    || (|f| > 0 && f[|f| - 1] == "#" && |t| >= |f| - 1 && forall i :: 0 <= i < |f| - 1 ==> LevelFits(f[i], t[i]))
  }

  lemma {:induction false} MatchesIffPointwise(f: Levels, t: Levels)
    ensures Matches(f, t) <==> MatchesPointwise(f, t)
    decreases |f|
  {
    if f != [] && f[0] != "#" && t != [] {
      var f', t' := f[1..], t[1..];
      MatchesIffPointwise(f', t');
      if MatchesPointwise(f, t) && |f| == |t| && (forall i :: 0 <= i < |f| ==> LevelFits(f[i], t[i])) {
        assert LevelFits(f[0], t[0]);
        assert forall i :: 0 <= i < |f'| ==> f'[i] == f[i + 1] && t'[i] == t[i + 1];
      } else if MatchesPointwise(f, t) {
        assert LevelFits(f[0], t[0]);
        assert forall i :: 0 <= i < |f'| - 1 ==> f'[i] == f[i + 1] && t'[i] == t[i + 1];
      }
      if Matches(f, t) {
        assert forall i :: 1 <= i < |f| && i < |t| ==> f[i] == f'[i - 1] && t[i] == t'[i - 1];
      }
    }
  }

  predicate Literal(f: Levels) { "+" !in f && "#" !in f }

  // A filter without wildcards matches one topic only, up to outer slashes.
  lemma LiteralMatch(filter: string, topic: string)
    requires Literal(LevelsOf(filter))
    ensures Matches(LevelsOf(filter), LevelsOf(topic)) <==> Trim(filter) == Trim(topic)
  {
    hide Trim, Matches;
    var f, t := LevelsOf(filter), LevelsOf(topic);
    MatchesIffPointwise(f, t);
    LevelsJoin(filter);
    LevelsJoin(topic);
    assert forall i :: 0 <= i < |f| ==> f[i] in f;
    assert Matches(f, t) ==> f == t;
    assert f == t ==> MatchesPointwise(f, t);
  }
}

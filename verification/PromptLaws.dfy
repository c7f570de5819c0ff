/** What racing callers of the prompt manager cannot break, and what promotion does and does not achieve. */
module PromptLaws {
  import opened Basics
  import opened Sorting
  import opened Prompts

  // ---------------------------------------------------------------- contiguous versions

  lemma {:induction false} MaxVersionBounds(rows: seq<Row>, name: string)
    ensures MaxVersion(rows, name) >= 0
    ensures forall i :: 0 <= i < |rows| && rows[i].prompt == name ==> rows[i].version <= MaxVersion(rows, name)
    ensures MaxVersion(rows, name) > 0 ==> HasVersion(rows, name, MaxVersion(rows, name))
  {
    if rows != [] {
      var n := |rows| - 1;
      MaxVersionBounds(rows[..n], name);
      if MaxVersion(rows, name) > 0 && MaxVersion(rows, name) == MaxVersion(rows[..n], name) {
        var i :| 0 <= i < n && rows[..n][i].prompt == name && rows[..n][i].version == MaxVersion(rows, name);
        assert rows[i].prompt == name;
      }
    }
  }

  /** The versions of one prompt are exactly 1..k. */
  ghost predicate Contiguous(rows: seq<Row>, name: string) {
    forall v :: HasVersion(rows, name, v) <==> 1 <= v <= MaxVersion(rows, name)
  }

  /** No number is used twice. */
  ghost predicate NoDuplicates(rows: seq<Row>) {
    forall i, j :: 0 <= i < j < |rows| ==> rows[i].prompt != rows[j].prompt || rows[i].version != rows[j].version
  }

  ghost predicate Sound(s: State) {
    && NoDuplicates(s.tables.rows)
    && (forall i :: 0 <= i < |s.tables.rows| ==> s.tables.rows[i].prompt in s.tables.names)
    && (forall name :: name in s.tables.names ==>
          Contiguous(s.tables.rows, name) && MaxVersion(s.tables.rows, name) >= 1)
    && (forall c :: 0 <= c < |s.sessions| && s.sessions[c].HasRead? ==>
          && s.sessions[c].name in s.tables.names
          && 0 <= s.sessions[c].highest <= MaxVersion(s.tables.rows, s.sessions[c].name))
  }

  lemma {:induction false} HasAfterInsert(rows: seq<Row>, r: Row, name: string, v: int)
    ensures HasVersion(rows + [r], name, v) <==>
            HasVersion(rows, name, v) || (r.prompt == name && r.version == v)
  {
    if HasVersion(rows, name, v) {
      var i :| 0 <= i < |rows| && rows[i].prompt == name && rows[i].version == v;
      assert (rows + [r])[i] == rows[i];
    }
    if r.prompt == name && r.version == v {
      assert (rows + [r])[|rows|] == r;
    }
  }

  /** Inserting the next number of one prompt keeps every prompt contiguous. */
  lemma {:induction false} InsertKeepsContiguous(rows: seq<Row>, r: Row, name: string)
    requires r.version == MaxVersion(rows, r.prompt) + 1
    requires Contiguous(rows, r.prompt) && Contiguous(rows, name)
    ensures Contiguous(rows + [r], name)
  {
    MaxVersionBounds(rows, r.prompt);
    forall v ensures HasVersion(rows + [r], name, v) <==> 1 <= v <= MaxVersion(rows + [r], name) {
      HasAfterInsert(rows, r, name, v);
    }
  }

  lemma {:induction false} MaxAfterPromote(rows: seq<Row>, name: string, v: int, env: Environment, other: string)
    ensures MaxVersion(SetEnvironment(rows, name, v, env), other) == MaxVersion(rows, other)
  {
    if rows != [] {
      var n := |rows| - 1;
      MaxAfterPromote(rows[..n], name, v, env, other);
      assert SetEnvironment(rows, name, v, env)[..n] == SetEnvironment(rows[..n], name, v, env);
    }
  }

  lemma {:induction false} HasAfterPromote(rows: seq<Row>, name: string, v: int, env: Environment, other: string,
                                           u: int)
    ensures HasVersion(SetEnvironment(rows, name, v, env), other, u) <==> HasVersion(rows, other, u)
  {
    var after := SetEnvironment(rows, name, v, env);
    if i :| 0 <= i < |rows| && rows[i].prompt == other && rows[i].version == u {
      assert after[i].prompt == other && after[i].version == u;
    }
    if i :| 0 <= i < |rows| && after[i].prompt == other && after[i].version == u {
      assert rows[i].prompt == other && rows[i].version == u;
    }
  }

  /** The caller that commits gets the next number exactly when nobody else has taken it since the read. */
  lemma {:induction false} FirstCommitterWins(s: State, c: nat)
    requires Sound(s) && c < |s.sessions| && s.sessions[c].HasRead?
    ensures var h, t := s.sessions[c], Next(s, Finish(c));
            && (|t.tables.rows| == |s.tables.rows| + 1 <==> h.highest == MaxVersion(s.tables.rows, h.name))
            && (h.highest == MaxVersion(s.tables.rows, h.name) ==>
                  t.tables.rows == s.tables.rows + [Row(h.name, h.highest + 1, h.template, Draft)])
            && (h.highest != MaxVersion(s.tables.rows, h.name) ==> t.tables == s.tables)
  {
    var h := s.sessions[c];
    assert Contiguous(s.tables.rows, h.name);
    assert HasVersion(s.tables.rows, h.name, h.highest + 1) <==>
           1 <= h.highest + 1 <= MaxVersion(s.tables.rows, h.name);
  }

  lemma {:induction false} InsertIsSound(s: State, r: Row, t: State)
    requires Sound(s) && r.version == MaxVersion(s.tables.rows, r.prompt) + 1
    requires r.prompt in s.tables.names ==> Contiguous(s.tables.rows, r.prompt)
    requires r.prompt !in s.tables.names ==> MaxVersion(s.tables.rows, r.prompt) == 0
    requires t.tables == Tables(s.tables.names + {r.prompt}, s.tables.rows + [r])
    requires forall c :: 0 <= c < |t.sessions| && t.sessions[c].HasRead? ==>
               c < |s.sessions| && t.sessions[c] == s.sessions[c]
    ensures Sound(t)
  {
    var rows := s.tables.rows;
    MaxVersionBounds(rows, r.prompt);
    if r.prompt !in s.tables.names { NoRows(s, r.prompt); }
    forall name | name in t.tables.names
      ensures Contiguous(t.tables.rows, name) && MaxVersion(t.tables.rows, name) >= 1
    {
      InsertKeepsContiguous(rows, r, name);
    }
    forall c | 0 <= c < |t.sessions| && t.sessions[c].HasRead?
      ensures t.sessions[c].highest <= MaxVersion(t.tables.rows, t.sessions[c].name)
    {}
  }

  /** A name without a prompt has no rows. */
  lemma {:induction false} NoRows(s: State, name: string)
    requires Sound(s) && name !in s.tables.names
    ensures MaxVersion(s.tables.rows, name) == 0
    ensures Contiguous(s.tables.rows, name)
  {
    MaxVersionBounds(s.tables.rows, name);
    assert forall i :: 0 <= i < |s.tables.rows| ==> s.tables.rows[i].prompt != name;
  }

  lemma {:induction false} PromoteIsSound(s: State, name: string, v: int, target: Label)
    requires Sound(s)
    ensures Sound(Next(s, Promote(name, v, target)))
  {
    var t := Next(s, Promote(name, v, target));
    if t.tables != s.tables {
      forall other ensures MaxVersion(t.tables.rows, other) == MaxVersion(s.tables.rows, other) {
        MaxAfterPromote(s.tables.rows, name, v, target.env, other);
      }
      forall other | other in t.tables.names ensures Contiguous(t.tables.rows, other) {
        assert Contiguous(s.tables.rows, other);
        forall u ensures HasVersion(t.tables.rows, other, u) <==> 1 <= u <= MaxVersion(t.tables.rows, other) {
          HasAfterPromote(s.tables.rows, name, v, target.env, other, u);
        }
      }
    }
  }

  lemma {:induction false} StepIsSound(s: State, step: Step)
    requires Sound(s)
    ensures Sound(Next(s, step))
  {
    var t := Next(s, step);
    match step
    case Create(name, template) =>
      if name !in s.tables.names {
        NoRows(s, name);
        InsertIsSound(s, Row(name, 1, template, Draft), t);
      }
    case Begin(c, name, template) =>
      MaxVersionBounds(s.tables.rows, name);
    case Finish(c) =>
      if t.tables.rows != s.tables.rows {
        var h := s.sessions[c];
        FirstCommitterWins(s, c);
        assert t.tables.names == s.tables.names + {h.name};
        InsertIsSound(s, Row(h.name, h.highest + 1, h.template, Draft), t);
      }
    case Promote(name, v, target) => PromoteIsSound(s, name, v, target);
  }

  /** Whatever the interleaving, every prompt's versions are exactly 1..k, each number once. */
  lemma {:induction false} RunIsSound(s: State, steps: seq<Step>)
    requires Sound(s)
    ensures Sound(Run(s, steps))
    decreases |steps|
  {
    if steps != [] {
      StepIsSound(s, steps[0]);
      RunIsSound(Next(s, steps[0]), steps[1..]);
    }
  }

  lemma {:induction false} ReachableIsSound(callers: nat, steps: seq<Step>)
    ensures Sound(Run(Initial(callers), steps))
  {
    RunIsSound(Initial(callers), steps);
  }

  // ---------------------------------------------------------------- immutable templates

  /** Rows are never deleted, renumbered or rewritten; only environments change. */
  ghost predicate Preserved(before: seq<Row>, after: seq<Row>) {
    && |before| <= |after|
    && forall i :: 0 <= i < |before| ==> after[i] == before[i].(environment := after[i].environment)
  }

  lemma {:induction false} TemplatesNeverChange(s: State, steps: seq<Step>)
    ensures Preserved(s.tables.rows, Run(s, steps).tables.rows)
    decreases |steps|
  {
    if steps != [] {
      var t := Next(s, steps[0]);
      assert Preserved(s.tables.rows, t.tables.rows);
      TemplatesNeverChange(t, steps[1..]);
    }
  }

  /** An undisturbed `create_version` appends the next version with the given template, as a draft. */
  lemma {:induction false} UndisturbedCreate(s: State, c: nat, name: string, template: string)
    requires Sound(s) && c < |s.sessions| && name in s.tables.names
    ensures Next(Next(s, Begin(c, name, template)), Finish(c)).tables.rows
            == s.tables.rows + [Row(name, MaxVersion(s.tables.rows, name) + 1, template, Draft)]
  {
    StepIsSound(s, Begin(c, name, template));
    FirstCommitterWins(Next(s, Begin(c, name, template)), c);
  }

  /** Promotion relabels the one row with this name and version; all others stay as they are. */
  lemma {:induction false} PromotionIsLocal(s: State, name: string, v: int, env: Environment)
    requires Sound(s) && name in s.tables.names && HasVersion(s.tables.rows, name, v)
    ensures var rows, after := s.tables.rows, Next(s, Promote(name, v, Known(env))).tables.rows;
            exists i :: 0 <= i < |rows| && rows[i].prompt == name && rows[i].version == v
              && after == rows[i := rows[i].(environment := env)]
  {
    var rows, after := s.tables.rows, Next(s, Promote(name, v, Known(env))).tables.rows;
    var i :| 0 <= i < |rows| && rows[i].prompt == name && rows[i].version == v;
    forall k | 0 <= k < |rows| && k != i ensures after[k] == rows[k] {
      assert rows[k].prompt != name || rows[k].version != v;
    }
    assert after == rows[i := rows[i].(environment := env)];
  }

  lemma {:induction false} WhereUnaffected(rows: seq<Row>, name: string, v: int, env: Environment, keep: Row -> bool)
    requires forall r: Row :: keep(r) ==> r.prompt != name
    ensures Where(SetEnvironment(rows, name, v, env), keep) == Where(rows, keep)
  {
    if rows != [] {
      var n := |rows| - 1;
      var after := SetEnvironment(rows, name, v, env);
      WhereUnaffected(rows[..n], name, v, env, keep);
      assert after[..n] == SetEnvironment(rows[..n], name, v, env);
      assert keep(rows[n]) ==> after[n] == rows[n];
      assert after[n].prompt == rows[n].prompt;
    }
  }

  /** For every other prompt, every lookup and the listing answer as before. */
  lemma {:induction false} OtherPromptsUnaffected(t: Tables, name: string, v: int, target: Label, other: string,
                                                  version: Option<int>, environment: Option<Label>)
    requires other != name
    ensures var after := PromoteIn(t, name, v, target);
            && Get(after, other, version, environment) == Get(t, other, version, environment)
            && ListVersions(after, other) == ListVersions(t, other)
  {
    if PromoteIn(t, name, v, target) != t {
      WhereUnaffected(t.rows, name, v, target.env, OfPrompt(other));
      if version.Some? {
        WhereUnaffected(t.rows, name, v, target.env, OfVersion(other, version.value));
      } else if environment.Some? && environment.value.Known? {
        WhereUnaffected(t.rows, name, v, target.env, InEnvironment(other, environment.value.env));
      }
    }
  }

  // ---------------------------------------------------------------- what readers see

  lemma {:induction false} WhereMembers(rows: seq<Row>, keep: Row -> bool, r: Row)
    ensures r in Where(rows, keep) <==> r in rows && keep(r)
  {
    if rows != [] {
      var n := |rows| - 1;
      WhereMembers(rows[..n], keep, r);
      assert rows == rows[..n] + [rows[n]];
    }
  }

  lemma {:induction false} SortedMembers(rows: seq<Row>, keep: Row -> bool, r: Row)
    ensures r in SortDescending(Where(rows, keep), VersionKey()) <==> r in rows && keep(r)
  {
    var kept := Where(rows, keep);
    var sorted := SortDescending(kept, VersionKey());
    SortMultiset(kept, VersionKey());
    WhereMembers(rows, keep, r);
    assert r in sorted <==> r in multiset(sorted);
    assert r in kept <==> r in multiset(kept);
  }

  lemma {:induction false} FirstIsHighest(kept: seq<Row>, r: Row)
    ensures var sorted := SortDescending(kept, VersionKey());
            r in sorted ==> r.version <= sorted[0].version
  {
    var sorted := SortDescending(kept, VersionKey());
    SortIsStable(kept, VersionKey(), 0.0);
    if r in sorted {
      var i :| 0 <= i < |sorted| && sorted[i] == r;
      assert i > 0 ==> VersionKey()(sorted[0]) >= VersionKey()(sorted[i]);
      assert VersionKey()(sorted[0]) == sorted[0].version as real && VersionKey()(r) == r.version as real;
    }
  }

  /** The row a query picks: one that satisfies it, with the highest version among those. */
  lemma {:induction false} LatestIsHighest(rows: seq<Row>, keep: Row -> bool)
    ensures Latest(rows, keep) == None <==> forall r :: r in rows ==> !keep(r)
    ensures Latest(rows, keep).Some? ==>
              var top := Latest(rows, keep).value;
              top in rows && keep(top) && forall r :: r in rows && keep(r) ==> r.version <= top.version
  {
    var sorted := SortDescending(Where(rows, keep), VersionKey());
    forall r ensures r in sorted <==> r in rows && keep(r) { SortedMembers(rows, keep, r); }
    if sorted == [] {
      forall r | r in rows ensures !keep(r) { assert r !in sorted; }
    } else {
      assert sorted[0] in sorted;
      forall r | r in rows && keep(r) ensures r.version <= sorted[0].version { FirstIsHighest(Where(rows, keep), r); }
    }
  }

  /** Without version or environment, `get` returns the highest version of the prompt. */
  lemma {:induction false} GetReturnsLatest(s: State, name: string)
    requires Sound(s) && name in s.tables.names
    ensures var r := Get(s.tables, name, None, None);
            && r.Ok? && r.value in s.tables.rows
            && r.value.prompt == name && r.value.version == MaxVersion(s.tables.rows, name)
  {
    var rows, k := s.tables.rows, MaxVersion(s.tables.rows, name);
    LatestIsHighest(rows, OfPrompt(name));
    MaxVersionBounds(rows, name);
    var i :| 0 <= i < |rows| && rows[i].prompt == name && rows[i].version == k;
    assert rows[i] in rows && OfPrompt(name)(rows[i]);
  }

  /** By number, `get` returns the stored row with that number, and raises exactly when there is none. */
  lemma {:induction false} GetByVersion(s: State, name: string, v: int, environment: Option<Label>)
    requires Sound(s)
    ensures var r := Get(s.tables, name, Some(v), environment);
            && (r.Ok? <==> name in s.tables.names && 1 <= v <= MaxVersion(s.tables.rows, name))
            && (r.Ok? ==> r.value in s.tables.rows && r.value.prompt == name && r.value.version == v)
  {
    var rows := s.tables.rows;
    LatestIsHighest(rows, OfVersion(name, v));
    if name in s.tables.names {
      assert HasVersion(rows, name, v) <==> 1 <= v <= MaxVersion(rows, name);
      if i :| 0 <= i < |rows| && rows[i].prompt == name && rows[i].version == v {
        assert rows[i] in rows && OfVersion(name, v)(rows[i]);
      }
      if Get(s.tables, name, Some(v), environment).Ok? {
        var r := Latest(rows, OfVersion(name, v)).value;
        var i :| 0 <= i < |rows| && rows[i] == r;
      }
    }
  }

  /** Without a prompt of that name every lookup and the listing raise. */
  lemma {:induction false} UnknownPromptRaises(t: Tables, name: string, version: Option<int>, env: Option<Label>)
    ensures name !in t.names ==> Get(t, name, version, env) == Raised
    ensures ListVersions(t, name).Ok? <==> name in t.names
  {}

  /** By environment, `get` returns the highest stored row that is labelled with it, and raises when there is none. */
  lemma {:induction false} GetByEnvironment(s: State, name: string, target: Label)
    ensures var r := Get(s.tables, name, None, Some(target));
            && (r.Ok? <==> name in s.tables.names && target.Known? &&
                           exists row :: row in s.tables.rows && row.prompt == name && row.environment == target.env)
            && (r.Ok? ==> r.value in s.tables.rows && r.value.prompt == name && r.value.environment == target.env)
            && (r.Ok? ==> forall row :: row in s.tables.rows && row.prompt == name && row.environment == target.env ==>
                     row.version <= r.value.version)
  {
    if name in s.tables.names && target.Known? {
      var keep := InEnvironment(name, target.env);
      LatestIsHighest(s.tables.rows, keep);
      assert forall row :: keep(row) <==> row.prompt == name && row.environment == target.env;
    }
  }

  /** Is a row of this prompt in the environment with a number above `v`? */
  ghost predicate Overshadowed(rows: seq<Row>, name: string, v: int, env: Environment) {
    exists i :: 0 <= i < |rows| && rows[i].prompt == name && rows[i].environment == env && rows[i].version > v
  }

  /**
   * After a promotion, asking for the environment returns the promoted version exactly when no higher version is
   * already there: promoting an older version does not roll the environment back.
   */
  lemma {:induction false} PromotionTakesEffect(s: State, name: string, v: int, env: Environment)
    requires Sound(s) && name in s.tables.names && HasVersion(s.tables.rows, name, v)
    ensures var r := Get(Next(s, Promote(name, v, Known(env))).tables, name, None, Some(Known(env)));
            && r.Ok? && r.value.prompt == name && r.value.environment == env && r.value.version >= v
            && (r.value.version == v <==> !Overshadowed(s.tables.rows, name, v, env))
  {
    var rows, after := s.tables.rows, SetEnvironment(s.tables.rows, name, v, env);
    LatestIsHighest(after, InEnvironment(name, env));
    var i :| 0 <= i < |rows| && rows[i].prompt == name && rows[i].version == v;
    assert after[i] in after && InEnvironment(name, env)(after[i]);
    var top := Latest(after, InEnvironment(name, env)).value;
    if top.version > v { AboveWasThere(rows, name, v, env, top); }
    if Overshadowed(rows, name, v, env) {
      var k :| 0 <= k < |rows| && rows[k].prompt == name && rows[k].environment == env && rows[k].version > v;
      assert after[k] == rows[k] && after[k] in after && InEnvironment(name, env)(after[k]);
    }
  }

  /** A reachable promotion without effect: version 2 in production, then version 1 promoted in order to go back. */
  lemma {:induction false} RollbackWithoutEffect(name: string, older: string, newer: string)
    ensures var steps := [Create(name, older), Begin(0, name, newer), Finish(0),
                          Promote(name, 2, Known(Production)), Promote(name, 1, Known(Production))];
            Get(Run(Initial(1), steps).tables, name, None, Some(Known(Production)))
            == Ok(Row(name, 2, newer, Production))
  {
    var a := Next(Initial(1), Create(name, older));
    var b := Next(a, Begin(0, name, newer));
    var c := Next(b, Finish(0));
    var d := Next(c, Promote(name, 2, Known(Production)));
    var e := Next(d, Promote(name, 1, Known(Production)));
    assert a.tables == Tables({name}, [Row(name, 1, older, Draft)]);
    assert a.tables.rows[..0] == [] && MaxVersion(a.tables.rows, name) == 1;
    assert a.sessions == [Idle];
    assert b.sessions[0] == HasRead(name, 1, newer);
    assert c.tables == Tables({name}, [Row(name, 1, older, Draft), Row(name, 2, newer, Draft)]);
    assert c.tables.rows[1].version == 2;
    assert d.tables == Tables({name}, [Row(name, 1, older, Draft), Row(name, 2, newer, Production)]);
    assert d.tables.rows[0].version == 1;
    var rows := [Row(name, 1, older, Production), Row(name, 2, newer, Production)];
    assert e.tables == Tables({name}, rows);
    LatestIsHighest(rows, InEnvironment(name, Production));
    assert rows[1] in rows && InEnvironment(name, Production)(rows[1]);
    RunFive(Initial(1), Create(name, older), Begin(0, name, newer), Finish(0), Promote(name, 2, Known(Production)),
            Promote(name, 1, Known(Production)));
  }

  lemma {:induction false} RunStep(s: State, a: Step, rest: seq<Step>)
    ensures Run(s, [a] + rest) == Run(Next(s, a), rest)
  {
    assert ([a] + rest)[1..] == rest;
  }

  lemma {:induction false} RunFive(s: State, a: Step, b: Step, c: Step, d: Step, e: Step)
    ensures Run(s, [a, b, c, d, e]) == Next(Next(Next(Next(Next(s, a), b), c), d), e)
  {
    var s1 := Next(s, a);
    var s2 := Next(s1, b);
    var s3 := Next(s2, c);
    RunStep(s, a, [b, c, d, e]);
    RunStep(s1, b, [c, d, e]);
    RunStep(s2, c, [d, e]);
    RunStep(s3, d, [e]);
    RunStep(Next(s3, d), e, []);
    assert [a] + [b, c, d, e] == [a, b, c, d, e] && [b] + [c, d, e] == [b, c, d, e];
    assert [c] + [d, e] == [c, d, e] && [d] + [e] == [d, e] && [e] + [] == [e];
  }

  lemma {:induction false} AboveWasThere(rows: seq<Row>, name: string, v: int, env: Environment, top: Row)
    requires top in SetEnvironment(rows, name, v, env) && top.version > v
    requires top.prompt == name && top.environment == env
    ensures Overshadowed(rows, name, v, env)
  {
    var after := SetEnvironment(rows, name, v, env);
    var k :| 0 <= k < |after| && after[k] == top;
    assert rows[k] == top;
  }

  lemma {:induction false} CountOfVersion(rows: seq<Row>, name: string, v: int)
    requires NoDuplicates(rows)
    ensures |WithKey(Where(rows, OfPrompt(name)), VersionKey(), v as real)| ==
            if HasVersion(rows, name, v) then 1 else 0
  {
    if rows != [] {
      var n := |rows| - 1;
      CountOfVersion(rows[..n], name, v);
      WithKeyAppend(Where(rows[..n], OfPrompt(name)), rows[n], VersionKey(), v as real);
      assert rows == rows[..n] + [rows[n]];
      HasAfterInsert(rows[..n], rows[n], name, v);
      var kept := Where(rows[..n], OfPrompt(name));
      assert Where(rows, OfPrompt(name)) == if rows[n].prompt == name then kept + [rows[n]] else kept;
      assert VersionKey()(rows[n]) == rows[n].version as real;
    }
  }

  lemma {:induction false} TwoWithKey(xs: seq<Row>, i: nat, j: nat, k: real)
    requires i < j < |xs| && VersionKey()(xs[i]) == k && VersionKey()(xs[j]) == k
    ensures |WithKey(xs, VersionKey(), k)| >= 2
  {
    if i > 0 {
      TwoWithKey(xs[1..], i - 1, j - 1, k);
    } else {
      OneWithKey(xs[1..], j - 1, k);
    }
  }

  lemma {:induction false} OneWithKey(xs: seq<Row>, i: nat, k: real)
    requires i < |xs| && VersionKey()(xs[i]) == k
    ensures |WithKey(xs, VersionKey(), k)| >= 1
  {
    if i > 0 {
      OneWithKey(xs[1..], i - 1, k);
    }
  }

  ghost predicate Strict(list: seq<Row>) {
    forall i, j :: 0 <= i < j < |list| ==> list[i].version > list[j].version
  }

  ghost predicate Occurs(list: seq<Row>, v: int) {
    exists i :: 0 <= i < |list| && list[i].version == v
  }

  lemma {:induction false} Countdown(list: seq<Row>, k: int)
    requires k >= 0 && Strict(list)
    requires forall v :: Occurs(list, v) <==> 1 <= v <= k
    ensures |list| == k && forall i :: 0 <= i < |list| ==> list[i].version == k - i
  {
    if k > 0 {
      assert Occurs(list, k);
      assert Occurs(list, list[0].version);
      var rest := list[1..];
      forall v ensures Occurs(rest, v) <==> 1 <= v <= k - 1 {
        if Occurs(rest, v) {
          var i :| 0 <= i < |rest| && rest[i].version == v;
          assert list[i + 1].version == v;
          assert Occurs(list, v);
        }
        if 1 <= v <= k - 1 {
          assert Occurs(list, v);
          var i :| 0 <= i < |list| && list[i].version == v;
          assert rest[i - 1].version == v;
        }
      }
      Countdown(rest, k - 1);
      assert forall i :: 1 <= i < |list| ==> list[i] == rest[i - 1];
    } else if list != [] {
      assert Occurs(list, list[0].version);
    }
  }

  lemma {:induction false} ListVersionsOccur(rows: seq<Row>, name: string, list: seq<Row>, v: int)
    requires list == SortDescending(Where(rows, OfPrompt(name)), VersionKey())
    ensures Occurs(list, v) <==> HasVersion(rows, name, v)
  {
    if Occurs(list, v) {
      var i :| 0 <= i < |list| && list[i].version == v;
      SortedMembers(rows, OfPrompt(name), list[i]);
      var m :| 0 <= m < |rows| && rows[m] == list[i];
    }
    if HasVersion(rows, name, v) {
      var m :| 0 <= m < |rows| && rows[m].prompt == name && rows[m].version == v;
      SortedMembers(rows, OfPrompt(name), rows[m]);
    }
  }

  /** `list_versions` counts down from the latest version to 1. */
  lemma {:induction false} ListIsCountdown(s: State, name: string)
    requires Sound(s) && name in s.tables.names
    ensures var list := ListVersions(s.tables, name);
            && list.Ok? && |list.value| == MaxVersion(s.tables.rows, name)
            && forall i :: 0 <= i < |list.value| ==>
                 && list.value[i] in s.tables.rows && list.value[i].prompt == name
                 && list.value[i].version == MaxVersion(s.tables.rows, name) - i
  {
    var rows := s.tables.rows;
    var list := ListVersions(s.tables, name).value;
    assert Contiguous(rows, name);
    forall v ensures Occurs(list, v) <==> 1 <= v <= MaxVersion(rows, name) { ListVersionsOccur(rows, name, list, v); }
    SortedIsStrict(rows, name, list);
    Countdown(list, MaxVersion(rows, name));
    forall i | 0 <= i < |list| ensures list[i] in rows && list[i].prompt == name {
      SortedMembers(rows, OfPrompt(name), list[i]);
    }
  }

  lemma {:induction false} SortedIsStrict(rows: seq<Row>, name: string, list: seq<Row>)
    requires NoDuplicates(rows) && list == SortDescending(Where(rows, OfPrompt(name)), VersionKey())
    ensures Strict(list)
  {
    var kept := Where(rows, OfPrompt(name));
    forall i, j | 0 <= i < j < |list| ensures list[i].version > list[j].version {
      SortIsStable(kept, VersionKey(), list[i].version as real);
      assert VersionKey()(list[i]) >= VersionKey()(list[j]);
      CountOfVersion(rows, name, list[i].version);
      if list[i].version == list[j].version {
        TwoWithKey(list, i, j, list[i].version as real);
      }
    }
  }
}

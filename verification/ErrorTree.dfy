/** Flattening of nested validation errors into a dictionary with dotted keys. */
module ErrorTree {
  import opened Options

  datatype ErrorNode = ErrorNode(property: string, constraints: Option<seq<string>>, children: seq<ErrorNode>)

  /** A node with constraints: the properties from the root down to it, and its messages. */
  datatype Finding = Finding(path: seq<string>, messages: seq<string>)

  function Below(property: string, fs: seq<Finding>): (r: seq<Finding>)
    ensures |r| == |fs|
    ensures forall i :: 0 <= i < |fs| ==> r[i] == Finding([property] + fs[i].path, fs[i].messages)
  {
    seq(|fs|, i requires 0 <= i < |fs| => Finding([property] + fs[i].path, fs[i].messages))
  }

  /** The findings of a forest, parents before children, in order. */
  function Findings(errors: seq<ErrorNode>): (r: seq<Finding>)
    ensures forall i :: 0 <= i < |r| ==> r[i].path != []
    decreases errors, 0
  {
    if errors == [] then []
    else Findings(errors[..|errors| - 1]) + FindingsAt(errors[|errors| - 1])
  }

  function FindingsAt(error: ErrorNode): (r: seq<Finding>)
    ensures forall i :: 0 <= i < |r| ==> r[i].path != [] && r[i].path[0] == error.property
    decreases error, 1
  {
    (if error.constraints.Some? then [Finding([error.property], error.constraints.value)] else [])
    + Below(error.property, Findings(error.children))
  }

  function Join(path: seq<string>): string {
    if path == [] then ""
    else if |path| == 1 then path[0]
    else path[0] + "." + Join(path[1..])
  }

  /** The messages of the last finding whose dotted path is `key`. */
  function Last(fs: seq<Finding>, key: string): Option<seq<string>> {
    if fs == [] then None
    else if Join(fs[|fs| - 1].path) == key then Some(fs[|fs| - 1].messages)
    else Last(fs[..|fs| - 1], key)
  }

  /** `m` holds, for every dotted path, the messages of the last finding with that path. */
  ghost predicate Represents(m: map<string, seq<string>>, fs: seq<Finding>) {
    forall key :: (if key in m then Last(fs, key) == Some(m[key]) else Last(fs, key) == None)
  }

  lemma {:induction false} LastConcat(a: seq<Finding>, b: seq<Finding>, key: string)
    ensures Last(a + b, key) == if Last(b, key).Some? then Last(b, key) else Last(a, key)
    decreases |b|
  {
    if b == [] {
      assert a + b == a;
    } else {
      LastConcat(a, b[..|b| - 1], key);
      assert (a + b)[..|a + b| - 1] == a + b[..|b| - 1];
    }
  }

  lemma PrefixCancels(property: string, a: string, b: string)
    requires property + "." + a == property + "." + b
    ensures a == b
  {
    assert (property + "." + a)[|property| + 1..] == a;
    assert (property + "." + b)[|property| + 1..] == b;
  }

  /** Below a property, exactly the keys `property.key` are found. */
  lemma {:induction false} LastBelow(property: string, fs: seq<Finding>, key: string)
    requires forall i :: 0 <= i < |fs| ==> fs[i].path != []
    ensures Last(Below(property, fs), property + "." + key) == Last(fs, key)
    decreases |fs|
  {
    if fs != [] {
      var n := |fs| - 1;
      LastBelow(property, fs[..n], key);
      assert Below(property, fs)[..n] == Below(property, fs[..n]);
      var path := fs[n].path;
      assert ([property] + path)[1..] == path;
      assert Join([property] + path) == property + "." + Join(path);
      if property + "." + Join(path) == property + "." + key {
        PrefixCancels(property, Join(path), key);
      }
    }
  }

  lemma {:induction false} LastBelowIsPrefixed(property: string, fs: seq<Finding>, full: string)
    requires forall i :: 0 <= i < |fs| ==> fs[i].path != []
    requires Last(Below(property, fs), full).Some?
    ensures exists key :: full == property + "." + key && Last(fs, key).Some?
    decreases |fs|
  {
    var n := |fs| - 1;
    var path := fs[n].path;
    assert ([property] + path)[1..] == path;
    assert Below(property, fs)[..n] == Below(property, fs[..n]);
    if Join([property] + path) == full {
      assert full == property + "." + Join(path) && Last(fs, Join(path)).Some?;
    } else {
      LastBelowIsPrefixed(property, fs[..n], full);
      var key :| full == property + "." + key && Last(fs[..n], key).Some?;
      assert Last(fs, key).Some?;
    }
  }

  /** Fills the dictionary in place, as the pipe does: own messages first, then those of the
      children under prefixed keys, each write replacing what was there. */
  method FormatErrors(errors: seq<ErrorNode>) returns (formattedErrors: map<string, seq<string>>)
    ensures Represents(formattedErrors, Findings(errors))
    decreases errors
  {
    formattedErrors := map[];
    for i := 0 to |errors|
      invariant Represents(formattedErrors, Findings(errors[..i]))
    {
      var error := errors[i];
      assert errors[..i + 1][..i] == errors[..i];
      ghost var before := Findings(errors[..i]);
      ghost var own := if error.constraints.Some? then [Finding([error.property], error.constraints.value)] else [];
      ghost var nested := Findings(error.children);
      ghost var start := formattedErrors;
      if error.constraints.Some? {
        formattedErrors := formattedErrors[error.property := error.constraints.value];
      }
      PutOwn(start, formattedErrors, before, error);
      if |error.children| > 0 {
        var nestedErrors := FormatErrors(error.children);
        formattedErrors := PutNested(formattedErrors, error.property, nestedErrors);
        NestedRepresents(before + own, error.property, nested, nestedErrors, formattedErrors);
      } else {
        assert Below(error.property, nested) == [];
        assert before + own + [] == before + own;
      }
      assert before + own + Below(error.property, nested) == before + FindingsAt(error);
    }
    assert errors[..|errors|] == errors;
  }

  lemma PutOwn(start: map<string, seq<string>>, m: map<string, seq<string>>, before: seq<Finding>, error: ErrorNode)
    requires Represents(start, before)
    requires m == if error.constraints.Some? then start[error.property := error.constraints.value] else start
    ensures Represents(m, before + if error.constraints.Some? then [Finding([error.property], error.constraints.value)] else [])
  {
    if error.constraints.Some? {
      var f := Finding([error.property], error.constraints.value);
      assert (before + [f])[..|before|] == before;
    } else {
      assert before + [] == before;
    }
  }

  /** What the inner loop leaves: the nested keys prefixed, everything else as it was. */
  ghost predicate Merged(m: map<string, seq<string>>, property: string, nested: map<string, seq<string>>, r: map<string, seq<string>>) {
    && (forall key :: key in nested ==> property + "." + key in r && r[property + "." + key] == nested[key])
    && (forall full :: full in r <==> full in m || exists key :: key in nested && full == property + "." + key)
    && (forall full :: full in r && (forall key :: key in nested ==> full != property + "." + key) ==> r[full] == m[full])
  }

  method PutNested(m: map<string, seq<string>>, property: string, nested: map<string, seq<string>>)
    returns (r: map<string, seq<string>>)
    ensures Merged(m, property, nested, r)
  {
    r := m;
    var todo := nested.Keys;
    ghost var done: map<string, seq<string>> := map[];
    while todo != {}
      invariant todo <= nested.Keys
      invariant done.Keys == nested.Keys - todo
      invariant forall key :: key in done ==> done[key] == nested[key]
      invariant Merged(m, property, done, r)
      decreases todo
    {
      var key :| key in todo;
      MergeOne(m, property, done, r, key, nested[key]);
      r := r[property + "." + key := nested[key]];
      todo := todo - {key};
      done := done[key := nested[key]];
    }
    assert done == nested;
  }

  lemma MergeOne(m: map<string, seq<string>>, property: string, done: map<string, seq<string>>, r: map<string, seq<string>>,
                 key: string, v: seq<string>)
    requires Merged(m, property, done, r) && key !in done
    ensures Merged(m, property, done[key := v], r[property + "." + key := v])
  {
    forall k | k in done ensures property + "." + k != property + "." + key {
      if property + "." + k == property + "." + key {
        PrefixCancels(property, k, key);
      }
    }
  }

  lemma NestedRepresents(before: seq<Finding>, property: string, fs: seq<Finding>, nested: map<string, seq<string>>, r: map<string, seq<string>>)
    requires forall i :: 0 <= i < |fs| ==> fs[i].path != []
    requires Represents(nested, fs)
    requires exists m :: Represents(m, before) && Merged(m, property, nested, r)
    ensures Represents(r, before + Below(property, fs))
  {
    var m :| Represents(m, before) && Merged(m, property, nested, r);
    forall full ensures if full in r then Last(before + Below(property, fs), full) == Some(r[full])
                        else Last(before + Below(property, fs), full) == None {
      LastConcat(before, Below(property, fs), full);
      if Last(Below(property, fs), full).Some? {
        LastBelowIsPrefixed(property, fs, full);
        var key :| full == property + "." + key && Last(fs, key).Some?;
        LastBelow(property, fs, key);
        assert key in nested;
      } else {
        forall key | key in nested ensures full != property + "." + key {
          LastBelow(property, fs, key);
        }
      }
    }
  }

  // ---- nothing is lost --------------------------------------------------------------------

  predicate DotFree(s: string) {
    forall k :: 0 <= k < |s| ==> s[k] != '.'
  }

  /** Property names contain no dot, and siblings have different names. */
  predicate WellNamed(errors: seq<ErrorNode>)
    decreases errors
  {
    && (forall i :: 0 <= i < |errors| ==> DotFree(errors[i].property) && WellNamed(errors[i].children))
    && (forall i, j :: 0 <= i < j < |errors| ==> errors[i].property != errors[j].property)
  }

  predicate PlainPath(path: seq<string>) {
    path != [] && forall k :: 0 <= k < |path| ==> DotFree(path[k])
  }

  /** Different findings, different paths, all of them plain. */
  predicate Separate(fs: seq<Finding>) {
    && (forall i :: 0 <= i < |fs| ==> PlainPath(fs[i].path))
    && (forall i, j :: 0 <= i < j < |fs| ==> fs[i].path != fs[j].path)
  }

  predicate StartsIn(fs: seq<Finding>, errors: seq<ErrorNode>) {
    forall i :: 0 <= i < |fs| ==> exists k :: 0 <= k < |errors| && StartsAt(fs[i], errors[k])
  }

  predicate StartsAt(f: Finding, error: ErrorNode) {
    f.path != [] && f.path[0] == error.property
  }

  lemma {:induction false} FindingsStartAtRoots(errors: seq<ErrorNode>)
    ensures StartsIn(Findings(errors), errors)
    decreases |errors|
  {
    if errors != [] {
      var n := |errors| - 1;
      var (fs, front) := (Findings(errors), Findings(errors[..n]));
      FindingsStartAtRoots(errors[..n]);
      forall i | 0 <= i < |fs| ensures exists k :: 0 <= k < |errors| && StartsAt(fs[i], errors[k]) {
        if i < |front| {
          var k :| 0 <= k < n && StartsAt(front[i], errors[..n][k]);
          assert StartsAt(fs[i], errors[k]);
        } else {
          assert StartsAt(fs[i], errors[n]);
        }
      }
    }
  }

  lemma {:induction false} FindingsAreSeparate(errors: seq<ErrorNode>)
    requires WellNamed(errors)
    ensures Separate(Findings(errors))
    decreases errors, 0
  {
    if errors != [] {
      var n := |errors| - 1;
      var (front, last) := (Findings(errors[..n]), FindingsAt(errors[n]));
      FindingsAreSeparate(errors[..n]);
      FindingsAtAreSeparate(errors[n]);
      FindingsStartAtRoots(errors[..n]);
      forall i, j | 0 <= i < |front| && 0 <= j < |last| ensures front[i].path != last[j].path {
        var k :| 0 <= k < n && StartsAt(front[i], errors[..n][k]);
        assert errors[k].property != errors[n].property;
      }
    }
  }

  lemma BelowIsSeparate(property: string, fs: seq<Finding>)
    requires DotFree(property) && Separate(fs)
    ensures Separate(Below(property, fs))
    ensures forall i :: 0 <= i < |fs| ==> Below(property, fs)[i].path != [property]
  {
    var below := Below(property, fs);
    forall i, j | 0 <= i < j < |fs| ensures below[i].path != below[j].path {
      assert below[i].path[1..] == fs[i].path && below[j].path[1..] == fs[j].path;
    }
    forall i | 0 <= i < |fs| ensures below[i].path != [property] {
      assert |below[i].path| > 1;
    }
  }

  lemma {:induction false} FindingsAtAreSeparate(error: ErrorNode)
    requires DotFree(error.property) && WellNamed(error.children)
    ensures Separate(FindingsAt(error))
    decreases error, 1
  {
    FindingsAreSeparate(error.children);
    BelowIsSeparate(error.property, Findings(error.children));
  }

  /** Where the dots of a key are. */
  function Split(key: string): (path: seq<string>)
    ensures path != []
  {
    if key == "" then [""]
    else
      var rest := Split(key[1..]);
      if key[0] == '.' then [""] + rest else [[key[0]] + rest[0]] + rest[1..]
  }

  lemma {:induction false} JoinSplit(key: string)
    ensures Join(Split(key)) == key
    decreases |key|
  {
    if key != "" {
      var rest := Split(key[1..]);
      JoinSplit(key[1..]);
      assert key == [key[0]] + key[1..];
      if key[0] == '.' {
        assert ([""] + rest)[1..] == rest;
        assert Join([""] + rest) == "" + "." + Join(rest);
        assert "" + "." + Join(rest) == "." + Join(rest);
      } else {
        var path := [[key[0]] + rest[0]] + rest[1..];
        assert path[1..] == rest[1..];
        if |rest| > 1 {
          assert [key[0]] + rest[0] + "." + Join(rest[1..]) == [key[0]] + (rest[0] + "." + Join(rest[1..]));
        }
      }
    }
  }

  lemma {:induction false} SplitPlain(name: string)
    requires DotFree(name)
    ensures Split(name) == [name]
    decreases |name|
  {
    if name != "" {
      SplitPlain(name[1..]);
      assert [name[0]] + name[1..] == name;
    }
  }

  lemma {:induction false} SplitAtDot(name: string, rest: string)
    requires DotFree(name)
    ensures Split(name + "." + rest) == [name] + Split(rest)
    decreases |name|
  {
    var key := name + "." + rest;
    if name == "" {
      assert key[1..] == rest;
    } else {
      SplitAtDot(name[1..], rest);
      assert key[1..] == name[1..] + "." + rest;
      assert [name[0]] + name[1..] == name;
    }
  }

  lemma {:induction false} SplitJoin(path: seq<string>)
    requires PlainPath(path)
    ensures Split(Join(path)) == path
    decreases |path|
  {
    if |path| == 1 {
      SplitPlain(path[0]);
    } else {
      SplitJoin(path[1..]);
      SplitAtDot(path[0], Join(path[1..]));
    }
  }

  lemma {:induction false} LastOfSeparate(fs: seq<Finding>, i: nat)
    requires Separate(fs) && i < |fs|
    ensures Last(fs, Join(fs[i].path)) == Some(fs[i].messages)
    decreases |fs|
  {
    var n := |fs| - 1;
    if i < n {
      LastOfSeparate(fs[..n], i);
      SplitJoin(fs[i].path);
      SplitJoin(fs[n].path);
    }
  }

  predicate HasKey(fs: seq<Finding>, i: nat, key: string) {
    i < |fs| && Join(fs[i].path) == key
  }

  lemma {:induction false} LastIsAFinding(fs: seq<Finding>, key: string) returns (i: nat)
    requires Last(fs, key).Some?
    ensures HasKey(fs, i, key) && Last(fs, key) == Some(fs[i].messages)
    decreases |fs|
  {
    var n := |fs| - 1;
    i := n;
    if Join(fs[n].path) != key {
      i := LastIsAFinding(fs[..n], key);
    }
  }

  /** Does every node with constraints find its own messages under its dotted path? */
  predicate NothingLost(m: map<string, seq<string>>, fs: seq<Finding>) {
    forall i: nat :: i < |fs| ==> Keeps(m, fs[i])
  }

  predicate Keeps(m: map<string, seq<string>>, f: Finding) {
    Join(f.path) in m && m[Join(f.path)] == f.messages
  }

  /** Faithful flattening: over a well-named forest, the keys of the dictionary are exactly the
      dotted paths of the nodes with constraints, each with that node's messages, and no two
      such nodes share a key. */
  lemma FlatteningIsFaithful(errors: seq<ErrorNode>, m: map<string, seq<string>>)
    requires WellNamed(errors) && Represents(m, Findings(errors))
    ensures NothingLost(m, Findings(errors))
    ensures forall key :: key in m ==> IsKeyOf(Findings(errors), key)
    ensures forall i: nat, j: nat, key :: HasKey(Findings(errors), i, key) && HasKey(Findings(errors), j, key) ==> i == j
  {
    FindingsAreSeparate(errors);
    SeparateIsFaithful(m, Findings(errors));
  }

  ghost predicate IsKeyOf(fs: seq<Finding>, key: string) {
    exists i: nat :: HasKey(fs, i, key)
  }

  lemma SeparateIsFaithful(m: map<string, seq<string>>, fs: seq<Finding>)
    requires Represents(m, fs) && Separate(fs)
    ensures NothingLost(m, fs)
    ensures forall key :: key in m ==> IsKeyOf(fs, key)
    ensures forall i: nat, j: nat, key :: HasKey(fs, i, key) && HasKey(fs, j, key) ==> i == j
  {
    forall i: nat | i < |fs| ensures Keeps(m, fs[i]) {
      LastOfSeparate(fs, i);
    }
    forall key | key in m ensures IsKeyOf(fs, key) {
      var i := LastIsAFinding(fs, key);
    }
    forall i: nat, j: nat, key | HasKey(fs, i, key) && HasKey(fs, j, key) ensures i == j {
      KeysDiffer(fs, i, j);
    }
  }

  lemma KeysDiffer(fs: seq<Finding>, i: nat, j: nat)
    requires Separate(fs) && i < |fs| && j < |fs| && Join(fs[i].path) == Join(fs[j].path)
    ensures i == j
  {
    SplitJoin(fs[i].path);
    SplitJoin(fs[j].path);
  }

  /** The messages of every node with constraints, by the path of the node. */
  function NodeMessages(fs: seq<Finding>): map<seq<string>, seq<string>> {
    if fs == [] then map[] else NodeMessages(fs[..|fs| - 1])[fs[|fs| - 1].path := fs[|fs| - 1].messages]
  }

  lemma JoinIsInjective(p: seq<string>, q: seq<string>)
    requires PlainPath(p) && PlainPath(q) && Join(p) == Join(q)
    ensures p == q
  {
    SplitJoin(p);
    SplitJoin(q);
  }

  lemma {:induction false} NodeMessagesAt(fs: seq<Finding>, path: seq<string>)
    requires Separate(fs) && PlainPath(path)
    ensures if path in NodeMessages(fs) then Last(fs, Join(path)) == Some(NodeMessages(fs)[path])
            else Last(fs, Join(path)) == None
    decreases |fs|
  {
    if fs != [] {
      var (front, last) := (fs[..|fs| - 1], fs[|fs| - 1]);
      NodeMessagesAt(front, path);
      if path == last.path {
        assert Last(fs, Join(path)) == Some(last.messages);
      } else {
        if Join(path) == Join(last.path) {
          JoinIsInjective(path, last.path);
        }
        assert Last(fs, Join(path)) == Last(front, Join(path));
      }
    }
  }

  lemma {:induction false} NodePathsArePlain(fs: seq<Finding>, path: seq<string>)
    requires Separate(fs) && path in NodeMessages(fs)
    ensures PlainPath(path)
    decreases |fs|
  {
    var n := |fs| - 1;
    if path != fs[n].path {
      NodePathsArePlain(fs[..n], path);
    }
  }

  lemma JoinSplitAll()
    ensures forall key :: Join(Split(key)) == key
  {
    forall key ensures Join(Split(key)) == key {
      JoinSplit(key);
    }
  }

  /** Reads a flat dictionary back: splits every key at its dots. */
  ghost function Unflatten(m: map<string, seq<string>>): map<seq<string>, seq<string>> {
    JoinSplitAll();
    map key | key in m :: Split(key) := m[key]
  }

  lemma {:induction false} SplitIsPlain(key: string)
    ensures PlainPath(Split(key))
    decreases |key|
  {
    if key != "" {
      SplitIsPlain(key[1..]);
    }
  }

  /** Round trip: from the dictionary of a well-named forest, the messages of every node can be
      read back. */
  lemma UnflattenRestores(errors: seq<ErrorNode>, m: map<string, seq<string>>)
    requires WellNamed(errors) && Represents(m, Findings(errors))
    ensures Unflatten(m) == NodeMessages(Findings(errors))
  {
    var fs := Findings(errors);
    var (u, nodes) := (Unflatten(m), NodeMessages(fs));
    FindingsAreSeparate(errors);
    JoinSplitAll();
    forall path | path in u ensures path in nodes && nodes[path] == u[path] {
      var key :| key in m && Split(key) == path;
      SplitIsPlain(key);
      NodeMessagesAt(fs, path);
    }
    forall path | path in nodes ensures path in u {
      NodePathsArePlain(fs, path);
      NodeMessagesAt(fs, path);
      SplitJoin(path);
      assert Join(path) in m;
    }
  }

  /** Nodes that share a dotted path have the same messages. */
  predicate Agreeing(fs: seq<Finding>) {
    forall i, j :: 0 <= i < j < |fs| && Join(fs[i].path) == Join(fs[j].path) ==> fs[i].messages == fs[j].messages
  }

  lemma {:induction false} FoundAtItsKey(fs: seq<Finding>, i: nat)
    requires i < |fs|
    ensures Last(fs, Join(fs[i].path)).Some?
    decreases |fs|
  {
    if i < |fs| - 1 {
      FoundAtItsKey(fs[..|fs| - 1], i);
    }
  }

  /** For every forest, whatever its names are, no messages are lost exactly when any two nodes
      with the same dotted path have the same messages. */
  lemma LostExactlyOnDisagreement(errors: seq<ErrorNode>, m: map<string, seq<string>>)
    requires Represents(m, Findings(errors))
    ensures NothingLost(m, Findings(errors)) <==> Agreeing(Findings(errors))
  {
    LostIffDisagreeing(m, Findings(errors));
  }

  lemma LostIffDisagreeing(m: map<string, seq<string>>, fs: seq<Finding>)
    requires Represents(m, fs)
    ensures NothingLost(m, fs) <==> Agreeing(fs)
  {
    if Agreeing(fs) {
      forall i: nat | i < |fs| ensures Keeps(m, fs[i]) {
        FoundAtItsKey(fs, i);
        var j := LastIsAFinding(fs, Join(fs[i].path));
        assert fs[i].messages == fs[j].messages;
      }
    } else {
      var i, j :| 0 <= i < j < |fs| && Join(fs[i].path) == Join(fs[j].path) && fs[i].messages != fs[j].messages;
      assert !(Keeps(m, fs[i]) && Keeps(m, fs[j]));
    }
  }

  /** With a dot in a name, messages can be lost: the child `b` of `a` and the sibling `a.b`
      share a key. */
  lemma DottedNamesCollide(m: map<string, seq<string>>, first: seq<string>, second: seq<string>)
    requires first != second
    requires Represents(m, Findings([ErrorNode("a.b", Some(first), []),
                                     ErrorNode("a", None, [ErrorNode("b", Some(second), [])])]))
    ensures "a.b" in m && m["a.b"] == second
  {
    var outer, child := ErrorNode("a.b", Some(first), []), ErrorNode("b", Some(second), []);
    var parent := ErrorNode("a", None, [child]);
    assert [outer, parent][..1] == [outer] && [outer][..0] == [] && [child][..0] == [];
    assert Below("b", Findings([])) == [];
    assert Findings([child]) == FindingsAt(child) == [Finding(["b"], second)];
    assert FindingsAt(parent) == Below("a", [Finding(["b"], second)]);
    var fs := Findings([outer, parent]);
    assert fs[|fs| - 1] == Finding(["a"] + ["b"], second);
    assert (["a"] + ["b"])[1..] == ["b"];
    assert Join(["a"] + ["b"]) == "a" + "." + "b" == "a.b";
    assert Last(fs, "a.b") == Some(second);
  }
}

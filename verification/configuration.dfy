/** The configuration store: a map from option name to a value, where a value
    is a string, an array of strings, or a nested configuration (the node the
    command-line parser creates for each recognised command). Names are unique
    within one node because the entries live in a map; nesting forms a tree. */
module Configurations {
  import opened Wrappers

  datatype Value =
    | Str(text: string)
    | StrArray(items: seq<string>)
    | Nested(config: Configuration)

  datatype Configuration = Configuration(entries: map<string, Value>)

  /** Why `value(name)` fails. */
  datatype ConfigError = NotFound(name: string)

  /** A freshly constructed configuration. */
  function Empty(): (c: Configuration)
    ensures Size(c) == 0
    ensures forall name :: ValueOrNull(c, name) == None
  {
    Configuration(map[])
  }

  /** Number of top-level entries. */
  function Size(c: Configuration): nat {
    |c.entries|
  }

  /** `value(name)`: the stored value, or NotFound when the name is absent. */
  function ValueOf(c: Configuration, name: string): (r: Result<Value, ConfigError>)
    ensures r.Success? <==> name in c.entries
    ensures r.Success? ==> r.value == c.entries[name]
    ensures r.Failure? ==> r.error == NotFound(name)
  {
    if name in c.entries then Success(c.entries[name]) else Failure(NotFound(name))
  }

  /** `valueOrDefault(name, default)`: total; falls back to `default`. */
  function ValueOrDefault(c: Configuration, name: string, default: Value): (r: Value)
    ensures name in c.entries ==> r == c.entries[name]
    ensures name !in c.entries ==> r == default
  {
    ValueOrNull(c, name).GetOr(default)
  }

  /** `valueOrNull(name)`: total; None plays the part of the null pointer. */
  function ValueOrNull(c: Configuration, name: string): (r: Option<Value>)
    ensures r.Some? <==> name in c.entries
    ensures r.Some? ==> r.value == c.entries[name]
  {
    ValueOf(c, name).ToOption()
  }

  /** `set(name, value)`: inserts or overwrites one entry, leaving every other
      entry as it was. */
  function Set(c: Configuration, name: string, v: Value): (r: Configuration)
    ensures ValueOf(r, name) == Success(v)
    ensures forall other :: other != name ==> ValueOrNull(r, other) == ValueOrNull(c, other)
    ensures Size(r) == if name in c.entries then Size(c) else Size(c) + 1
  {
    var r := Configuration(c.entries[name := v]);
    assert r.entries.Keys == c.entries.Keys + {name};
    r
  }

  /** The names in a sequence of `set` calls. */
  function Names(writes: seq<(string, Value)>): set<string>
    decreases |writes|
  {
    if |writes| == 0 then {} else {writes[0].0} + Names(writes[1..])
  }

  /** The configuration after the given `set` calls, applied left to right. */
  function SetAll(c: Configuration, writes: seq<(string, Value)>): Configuration
    decreases |writes|
  {
    if |writes| == 0 then c else SetAll(Set(c, writes[0].0, writes[0].1), writes[1..])
  }

  /** The value of the last write to `name`, searching from the end. */
  function LastWrite(writes: seq<(string, Value)>, name: string): Option<Value>
    decreases |writes|
  {
    if |writes| == 0 then None
    else if writes[|writes| - 1].0 == name then Some(writes[|writes| - 1].1)
    else LastWrite(writes[..|writes| - 1], name)
  }

  /** The stored names after a series of `set` calls are the names that were
      there plus the names set, whatever the order or repetition. */
  lemma {:induction false} SetAllKeys(c: Configuration, writes: seq<(string, Value)>)
    ensures SetAll(c, writes).entries.Keys == c.entries.Keys + Names(writes)
    decreases |writes|
  {
    if |writes| > 0 {
      var c' := Set(c, writes[0].0, writes[0].1);
      assert c'.entries.Keys == c.entries.Keys + {writes[0].0};
      SetAllKeys(c', writes[1..]);
    }
  }

  /** Starting from an empty configuration, the size is the number of
      distinct names set: setting a name again does not add an entry. */
  lemma SizeCountsDistinctNames(writes: seq<(string, Value)>)
    ensures Size(SetAll(Empty(), writes)) == |Names(writes)|
  {
    SetAllKeys(Empty(), writes);
    assert SetAll(Empty(), writes).entries.Keys == Names(writes);
  }

  /** One more `set` after a series of them is the last step of the series. */
  lemma {:induction false} SetAllSnoc(c: Configuration, writes: seq<(string, Value)>, name: string, v: Value)
    ensures SetAll(c, writes + [(name, v)]) == Set(SetAll(c, writes), name, v)
    decreases |writes|
  {
    if |writes| > 0 {
      assert (writes + [(name, v)])[1..] == writes[1..] + [(name, v)];
      SetAllSnoc(Set(c, writes[0].0, writes[0].1), writes[1..], name, v);
    }
  }

  /** Reading a name after a series of `set` calls yields the value of the last
      call for that name, or the value that was already there if none set it. */
  lemma {:induction false} SetAllLastWriteWins(c: Configuration, writes: seq<(string, Value)>, name: string)
    ensures ValueOrNull(SetAll(c, writes), name) ==
      if LastWrite(writes, name).Some? then LastWrite(writes, name) else ValueOrNull(c, name)
    decreases |writes|
  {
    if |writes| > 0 {
      var init := writes[..|writes| - 1];
      var last := writes[|writes| - 1];
      assert writes == init + [last];
      SetAllSnoc(c, init, last.0, last.1);
      SetAllLastWriteWins(c, init, name);
    }
  }

  // ---------------------------------------------------------------------
  // Paths into the tree. The parser keeps a pointer to the node of the
  // innermost command it has entered; here that pointer is the sequence of
  // names leading from the top-level configuration down to that node.
  // ---------------------------------------------------------------------

  /** The node reached by following `path` through nested configurations, or
      None when some step is missing or is not a nested configuration. */
  function NodeAt(c: Configuration, path: seq<string>): Option<Configuration>
    decreases |path|
  {
    if |path| == 0 then Some(c)
    else if path[0] in c.entries && c.entries[path[0]].Nested? then
      NodeAt(c.entries[path[0]].config, path[1..])
    else None
  }

  /** `set(name, v)` on the node at `path`, rebuilding the nodes above it.
      It succeeds exactly when the node exists; the node then reads as the
      old node with `name` set. SetAtPathFrame adds that nothing off the
      path changes. */
  function SetAtPath(c: Configuration, path: seq<string>, name: string, v: Value): (r: Option<Configuration>)
    ensures r.Some? <==> NodeAt(c, path).Some?
    ensures r.Some? ==> NodeAt(r.value, path) == Some(Set(NodeAt(c, path).value, name, v))
    ensures r.Some? && |path| > 0 ==>
      forall other :: other != path[0] ==> ValueOrNull(r.value, other) == ValueOrNull(c, other)
    decreases |path|
  {
    if |path| == 0 then Some(Set(c, name, v))
    else if path[0] in c.entries && c.entries[path[0]].Nested? then
      match SetAtPath(c.entries[path[0]].config, path[1..], name, v)
      case None => None
      case Some(inner) => Some(Set(c, path[0], Nested(inner)))
    else None
  }

  /** Every node along `path` (the top-level one included) still exists in
      `after`, and reads in `after` as in `before` under every name other
      than the one the path continues with. */
  ghost predicate OffPathUnchanged(before: Configuration, after: Configuration, path: seq<string>) {
    forall i :: 0 <= i < |path| ==> SiblingsUnchanged(before, after, path, i)
  }

  /** The node `path[..i]` exists on both sides and only its entry `path[i]`
      may differ. */
  ghost predicate SiblingsUnchanged(before: Configuration, after: Configuration, path: seq<string>, i: nat)
    requires i < |path|
  {
    && NodeAt(before, path[..i]).Some?
    && NodeAt(after, path[..i]).Some?
    && forall other :: other != path[i] ==>
         ValueOrNull(NodeAt(after, path[..i]).value, other) == ValueOrNull(NodeAt(before, path[..i]).value, other)
  }

  /** One node along the path: writing at the end of the path leaves its
      entries off the path as they were. */
  lemma {:induction false} SetAtPathKeepsSiblings(c: Configuration, path: seq<string>, name: string, v: Value, i: nat)
    requires SetAtPath(c, path, name, v).Some?
    requires i < |path|
    ensures SiblingsUnchanged(c, SetAtPath(c, path, name, v).value, path, i)
    decreases |path|
  {
    var r := SetAtPath(c, path, name, v).value;
    var child := c.entries[path[0]].config;
    var inner := SetAtPath(child, path[1..], name, v);
    assert r == Set(c, path[0], Nested(inner.value));
    if i == 0 {
      assert path[..0] == [];
    } else {
      assert path[..i][1..] == path[1..][..i - 1];
      assert path[..i][0] == path[0];
      assert r.entries[path[0]] == Nested(inner.value);
      SetAtPathKeepsSiblings(child, path[1..], name, v, i - 1);
    }
  }

  /** Writing at the end of a path changes nothing off the path: on the way
      down, every node keeps its other entries. */
  lemma SetAtPathFrame(c: Configuration, path: seq<string>, name: string, v: Value)
    requires SetAtPath(c, path, name, v).Some?
    ensures OffPathUnchanged(c, SetAtPath(c, path, name, v).value, path)
  {
    forall i | 0 <= i < |path|
      ensures SiblingsUnchanged(c, SetAtPath(c, path, name, v).value, path, i)
    {
      SetAtPathKeepsSiblings(c, path, name, v, i);
    }
  }

  /** A top-level `set` under a name other than the first of a path leaves
      the node at the end of that path as it was. */
  lemma SetKeepsNodeAt(c: Configuration, path: seq<string>, name: string, v: Value)
    requires |path| > 0 && name != path[0]
    ensures NodeAt(Set(c, name, v), path) == NodeAt(c, path)
  {
    assert ValueOrNull(Set(c, name, v), path[0]) == ValueOrNull(c, path[0]);
  }

  /** Following one more name from the node at `path` is following
      `path + [name]`. */
  lemma {:induction false} NodeAtSnoc(c: Configuration, path: seq<string>, name: string)
    ensures NodeAt(c, path + [name]) ==
      match NodeAt(c, path)
      case None => None
      case Some(node) =>
        if name in node.entries && node.entries[name].Nested? then Some(node.entries[name].config) else None
    decreases |path|
  {
    if |path| > 0 {
      assert (path + [name])[1..] == path[1..] + [name];
      if path[0] in c.entries && c.entries[path[0]].Nested? {
        NodeAtSnoc(c.entries[path[0]].config, path[1..], name);
      }
    }
  }
}

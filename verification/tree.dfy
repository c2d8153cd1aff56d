/**
 * The ASCII tree renderer of the command line tools, tools/tree.js: a
 * depth-first walk over an object that emits one line per property, drawn
 * with box connectors and indented three characters per level.
 */
module Trees {
  import opened Wrappers
  import Effects
  import Misc

  /** `TREE` */
  const Shift := "   "
  const Vertical := " │ "
  const Child := " ├─"
  const Last := " └─"

  /** A value as `typeof` and `Object.keys` see it. */
  datatype Node =
    | Obj(entries: seq<Entry>)    // an object or an array, its keys in `Object.keys` order
    | Null                        // `typeof null` is 'object', but `Object.keys(null)` throws
    | Leaf(text: string)          // any other value, as `' ' + value` renders it

  datatype Entry = Entry(key: string, value: Node)

  /** `'object' === typeof value` */
  predicate IsObject(n: Node) {
    n.Obj? || n.Null?
  }

  /** The constructor options: `onlyObject` (default true) and `filter` (default: keep all). */
  datatype Options = Options(onlyObject: bool, filter: string -> bool)

  /** The options of `new Treeify()` without arguments: objects only, every property kept. */
  const DefaultOptions := Options(true, (property: string) => true)

  /** `cb(property, parent)`, when set. */
  type Callback = Option<(string, Node) -> string>

  /** A property is shown when the filter keeps it and, with `onlyObject`, its value is an object. */
  predicate Keep(o: Options, e: Entry) {
    o.filter(e.key) && (!o.onlyObject || IsObject(e.value))
  }

  /** By default, exactly the properties whose value is an object (or `null`) are shown. */
  lemma DefaultKeepsObjects(e: Entry)
    ensures Keep(DefaultOptions, e) <==> IsObject(e.value)
  {
  }

  /** The displayed properties, in key order. */
  function Shown(o: Options, entries: seq<Entry>): (r: seq<Entry>)
    ensures forall e :: e in r <==> e in entries && Keep(o, e)
    ensures |r| <= |entries|
    decreases |entries|
  {
    if |entries| == 0 then []
    else
      var rest := Shown(o, entries[1..]);
      assert forall e :: e in entries <==> e == entries[0] || e in entries[1..];
      if Keep(o, entries[0]) then [entries[0]] + rest else rest
  }

  /** Filtering keeps the order: the shown properties of two runs of keys, one after the other. */
  lemma {:induction false} ShownAppend(o: Options, a: seq<Entry>, b: seq<Entry>)
    ensures Shown(o, a + b) == Shown(o, a) + Shown(o, b)
    decreases |a|
  {
    if |a| > 0 {
      assert (a + b)[1..] == a[1..] + b;
      ShownAppend(o, a[1..], b);
    } else {
      assert a + b == b;
    }
  }

  /** `filteredProps.slice(-1)[0]`: the last shown key, `undefined` when none. */
  function LastKey(shown: seq<Entry>): (k: Option<string>)
    ensures k.Some? <==> |shown| > 0
    ensures k.Some? ==> k.value == shown[|shown| - 1].key
  {
    if |shown| == 0 then None else Some(shown[|shown| - 1].key)
  }

  /** What precedes a line's content: nothing at level 0, otherwise the prefix and a connector. */
  function Lead(prefix: string, level: nat, isLast: bool): string {
    if level == 0 then "" else prefix + (if isLast then Last else Child)
  }

  /** The property, the value after a space unless it is an object, the callback's output after a space. */
  function Content(cb: Callback, parent: Node, key: string, value: Node): string {
    key
      + (if IsObject(value) then "" else " " + value.text)
      + (if cb.Some? then " " + cb.value(key, parent) else "")
  }

  /** The prefix handed to the children: three spaces below a last child, a bar otherwise, nothing at level 0. */
  function ChildPrefix(prefix: string, level: nat, isLast: bool): (p: string)
    ensures isLast ==> p == prefix + Shift
    ensures !isLast && level == 0 ==> p == prefix
    ensures !isLast && level > 0 ==> p == prefix + Vertical
  {
    if isLast then prefix + Shift else prefix + (if level == 0 then "" else Vertical)
  }

  /**
   * `iterate(current, prefix, level, isLast)`: a line for a non-empty
   * property, then, for an object, the shown children one level deeper.
   * `Null` emits its line and stops; the walk then throws, see `ToTree`.
   */
  function Visit(o: Options, cb: Callback, parent: Node, key: string, value: Node,
                 prefix: string, level: nat, isLast: bool): (lines: seq<string>)
    decreases value, 1
  {
    (if key != "" then [Lead(prefix, level, isLast) + Content(cb, parent, key, value)] else [])
      + (if value.Obj? then
           var shown := Shown(o, value.entries);
           Children(o, cb, value, shown, ChildPrefix(prefix, level, isLast), level + 1, LastKey(shown))
         else [])
  }

  /** The `for (let p of filteredProps)` loop: each child is last when its key is the last key. */
  function Children(o: Options, cb: Callback, node: Node, shown: seq<Entry>,
                    prefix: string, level: nat, lastKey: Option<string>): (lines: seq<string>)
    requires node.Obj?
    requires forall e :: e in shown ==> e in node.entries
    decreases node, 0, |shown|
  {
    if |shown| == 0 then []
    else
      var e := shown[0];
      assert e in node.entries;
      Visit(o, cb, node, e.key, e.value, prefix, level, Some(e.key) == lastKey)
        + Children(o, cb, node, shown[1..], prefix, level, lastKey)
  }

  /** Some shown object on the walk is `null`: `Object.keys(null)` throws a TypeError. */
  predicate ReachesNull(o: Options, value: Node)
    decreases value
  {
    match value
    case Null => true
    case Leaf(_) => false
    case Obj(entries) =>
      exists i :: 0 <= i < |entries| && Keep(o, entries[i]) && ReachesNull(o, entries[i].value)
  }

  /** The lines joined, each ended by a newline: `reduce((acc, line) => acc + line + '\n', '')`. */
  function Join(lines: seq<string>): (s: string)
    ensures s == Misc.Flatten(Terminated(lines))
  {
    JoinFrom("", lines);
    Misc.FoldLeft((acc: string, line: string) => acc + line + "\n", "", lines)
  }

  function Terminated(lines: seq<string>): (ts: seq<string>)
    ensures |ts| == |lines|
    ensures forall i :: 0 <= i < |lines| ==> ts[i] == lines[i] + "\n"
  {
    seq(|lines|, i requires 0 <= i < |lines| => lines[i] + "\n")
  }

  lemma {:induction false} JoinFrom(acc: string, lines: seq<string>)
    ensures Misc.FoldLeft((acc: string, line: string) => acc + line + "\n", acc, lines)
            == acc + Misc.Flatten(Terminated(lines))
    decreases |lines|
  {
    if |lines| > 0 {
      JoinFrom(acc + lines[0] + "\n", lines[1..]);
      assert Terminated(lines)[1..] == Terminated(lines[1..]);
      assert Misc.Flatten(Terminated(lines)) == lines[0] + "\n" + Misc.Flatten(Terminated(lines[1..]));
    }
  }

  /** The lines of `start(object, cb, options)`: the walk from the root, whose property is empty. */
  function Lines(o: Options, cb: Callback, root: Node): seq<string> {
    Visit(o, cb, root, "", root, "", 0, false)
  }

  /**
   * `toTree(object, cb, options)`: the joined lines, or the TypeError of a
   * shown `null`. Options left out of the call are `DefaultOptions`.
   */
  function ToTree(o: Options, cb: Callback, root: Node): (r: Result<string>)
    ensures r.Err? <==> ReachesNull(o, root)
    ensures r.Err? ==> r.error == Effects.TypeError
    ensures r.Ok? ==> r.value == Misc.Flatten(Terminated(Lines(o, cb, root)))
  {
    if ReachesNull(o, root) then Err(Effects.TypeError) else Ok(Join(Lines(o, cb, root)))
  }

  // ---------------------------------------------------------------------------
  // Properties of the walk
  // ---------------------------------------------------------------------------

  /** The number of non-empty properties the walk visits. */
  function Named(o: Options, value: Node): nat
    decreases value, 1
  {
    if value.Obj? then NamedChildren(o, value, Shown(o, value.entries)) else 0
  }

  function NamedChildren(o: Options, node: Node, shown: seq<Entry>): nat
    requires node.Obj?
    requires forall e :: e in shown ==> e in node.entries
    decreases node, 0, |shown|
  {
    if |shown| == 0 then 0
    else
      assert shown[0] in node.entries;
      (if shown[0].key != "" then 1 else 0) + Named(o, shown[0].value) + NamedChildren(o, node, shown[1..])
  }

  /** One line per non-empty property visited, and none for the root. */
  lemma RootLineCount(o: Options, cb: Callback, root: Node)
    ensures |Lines(o, cb, root)| == Named(o, root)
  {
    LineCount(o, cb, root, "", root, "", 0, false);
  }

  lemma {:induction false} LineCount(o: Options, cb: Callback, parent: Node, key: string, value: Node,
                                     prefix: string, level: nat, isLast: bool)
    ensures |Visit(o, cb, parent, key, value, prefix, level, isLast)| == (if key != "" then 1 else 0) + Named(o, value)
    decreases value, 1
  {
    if value.Obj? {
      var shown := Shown(o, value.entries);
      ChildrenCount(o, cb, value, shown, ChildPrefix(prefix, level, isLast), level + 1, LastKey(shown));
    }
  }

  lemma {:induction false} ChildrenCount(o: Options, cb: Callback, node: Node, shown: seq<Entry>,
                                         prefix: string, level: nat, lastKey: Option<string>)
    requires node.Obj?
    requires forall e :: e in shown ==> e in node.entries
    ensures |Children(o, cb, node, shown, prefix, level, lastKey)| == NamedChildren(o, node, shown)
    decreases node, 0, |shown|
  {
    if |shown| > 0 {
      var e := shown[0];
      assert e in node.entries;
      LineCount(o, cb, node, e.key, e.value, prefix, level, Some(e.key) == lastKey);
      ChildrenCount(o, cb, node, shown[1..], prefix, level, lastKey);
    }
  }

  /** Below level 0, every line of a subtree starts with the prefix it was handed. */
  lemma {:induction false} KeepsPrefix(o: Options, cb: Callback, parent: Node, key: string, value: Node,
                                       prefix: string, level: nat, isLast: bool)
    requires level > 0
    ensures forall line :: line in Visit(o, cb, parent, key, value, prefix, level, isLast) ==> prefix <= line
    decreases value, 1
  {
    var lines := Visit(o, cb, parent, key, value, prefix, level, isLast);
    var head := if key != "" then [Lead(prefix, level, isLast) + Content(cb, parent, key, value)] else [];
    if key != "" {
      LeadKeepsPrefix(prefix, level, isLast, Content(cb, parent, key, value));
    }
    if value.Obj? {
      var shown := Shown(o, value.entries);
      var inner := ChildPrefix(prefix, level, isLast);
      ChildrenKeepPrefix(o, cb, value, shown, inner, level + 1, LastKey(shown));
      assert prefix <= inner;
      var rest := Children(o, cb, value, shown, inner, level + 1, LastKey(shown));
      assert lines == head + rest;
      forall line | line in lines
        ensures prefix <= line
      {
        if line in rest {
          PrefixTrans(prefix, inner, line);
        }
      }
    } else {
      assert lines == head + [];
    }
  }

  /** Below level 0, a line starts with the prefix it was handed. */
  lemma LeadKeepsPrefix(prefix: string, level: nat, isLast: bool, content: string)
    requires level > 0
    ensures prefix <= Lead(prefix, level, isLast) + content
  {
    var connector := if isLast then Last else Child;
    assert Lead(prefix, level, isLast) + content == prefix + (connector + content);
  }

  lemma {:induction false} ChildrenKeepPrefix(o: Options, cb: Callback, node: Node, shown: seq<Entry>,
                                              prefix: string, level: nat, lastKey: Option<string>)
    requires node.Obj? && level > 0
    requires forall e :: e in shown ==> e in node.entries
    ensures forall line :: line in Children(o, cb, node, shown, prefix, level, lastKey) ==> prefix <= line
    decreases node, 0, |shown|
  {
    if |shown| > 0 {
      var e := shown[0];
      assert e in node.entries;
      KeepsPrefix(o, cb, node, e.key, e.value, prefix, level, Some(e.key) == lastKey);
      ChildrenKeepPrefix(o, cb, node, shown[1..], prefix, level, lastKey);
    }
  }

  lemma PrefixTrans(a: string, b: string, c: string)
    requires a <= b && b <= c
    ensures a <= c
  {
    assert c[..|a|] == b[..|a|];
  }

  /** No two shown properties share a key, as `Object.keys` guarantees. */
  predicate UniqueKeys(shown: seq<Entry>) {
    forall i, j :: 0 <= i < j < |shown| ==> shown[i].key != shown[j].key
  }

  /** The children visited by position: child `i` is last exactly when it is the final one. */
  function ByPosition(o: Options, cb: Callback, node: Node, shown: seq<Entry>,
                      prefix: string, level: nat, from: nat): seq<string>
    requires node.Obj? && from <= |shown|
    requires forall e :: e in shown ==> e in node.entries
    decreases node, 0, |shown| - from
  {
    if from == |shown| then []
    else
      var e := shown[from];
      assert e in node.entries;
      Visit(o, cb, node, e.key, e.value, prefix, level, from == |shown| - 1)
        + ByPosition(o, cb, node, shown, prefix, level, from + 1)
  }

  /**
   * With unique keys, comparing each key with the last key gives the `└─`
   * connector to the final child and `├─` to every other.
   */
  lemma ConnectorsByPosition(o: Options, cb: Callback, node: Node, shown: seq<Entry>, prefix: string, level: nat)
    requires node.Obj? && UniqueKeys(shown)
    requires forall e :: e in shown ==> e in node.entries
    ensures Children(o, cb, node, shown, prefix, level, LastKey(shown)) == ByPosition(o, cb, node, shown, prefix, level, 0)
  {
    ByPositionFrom(o, cb, node, shown, prefix, level, 0);
    assert shown[0..] == shown;
  }

  lemma {:induction false} ByPositionFrom(o: Options, cb: Callback, node: Node, shown: seq<Entry>,
                                          prefix: string, level: nat, from: nat)
    requires node.Obj? && UniqueKeys(shown) && from <= |shown|
    requires forall e :: e in shown ==> e in node.entries
    ensures Children(o, cb, node, shown[from..], prefix, level, LastKey(shown)) == ByPosition(o, cb, node, shown, prefix, level, from)
    decreases |shown| - from
  {
    if from < |shown| {
      var e := shown[from];
      assert shown[from..][0] == e && shown[from..][1..] == shown[from + 1..];
      assert Some(e.key) == LastKey(shown) <==> from == |shown| - 1;
      ByPositionFrom(o, cb, node, shown, prefix, level, from + 1);
    }
  }

  /** The first line of a non-empty property: prefix, connector, name, a leaf's value, the callback's output. */
  lemma FirstLine(o: Options, cb: Callback, parent: Node, key: string, value: Node,
                  prefix: string, level: nat, isLast: bool)
    requires key != "" && level > 0
    ensures var lines := Visit(o, cb, parent, key, value, prefix, level, isLast);
      && |lines| > 0
      && (cb.None? && value.Leaf? ==> lines[0] == prefix + (if isLast then Last else Child) + key + " " + value.text)
      && (cb.None? && IsObject(value) ==> lines[0] == prefix + (if isLast then Last else Child) + key)
      && (cb.Some? && value.Leaf? ==> lines[0] == prefix + (if isLast then Last else Child) + key + " " + value.text + " " + cb.value(key, parent))
      && (cb.Some? && IsObject(value) ==> lines[0] == prefix + (if isLast then Last else Child) + key + " " + cb.value(key, parent))
  {
    var lead := prefix + (if isLast then Last else Child);
    var lines := Visit(o, cb, parent, key, value, prefix, level, isLast);
    assert lines[0] == lead + Content(cb, parent, key, value);
    var tail := if cb.Some? then " " + cb.value(key, parent) else "";
    if IsObject(value) {
      assert Content(cb, parent, key, value) == key + tail;
    } else if value.Leaf? {
      assert Content(cb, parent, key, value) == key + " " + value.text + tail;
    }
  }

  /**
   * A small tree: two properties under the root, the first with a child
   * of its own, rendered with every property shown.
   */
  lemma SmallTree()
    ensures var root := Obj([Entry("a", Obj([Entry("x", Leaf("1"))])), Entry("b", Leaf("2"))]);
      Lines(Options(false, _ => true), None, root) == [Child + "a", Vertical + Last + "x 1", Last + "b 2"]
  {
    var o := Options(false, _ => true);
    var a := Obj([Entry("x", Leaf("1"))]);
    var root := Obj([Entry("a", a), Entry("b", Leaf("2"))]);
    assert Shown(o, a.entries) == a.entries;
    assert Shown(o, root.entries) == root.entries by {
      assert root.entries[1..] == [Entry("b", Leaf("2"))];
    }
    assert Content(None, a, "x", Leaf("1")) == "x 1";
    assert Content(None, root, "b", Leaf("2")) == "b 2";
    assert Content(None, root, "a", a) == "a";
    assert Lead(Vertical, 2, true) == Vertical + Last;
    assert Lead("", 1, true) == Last && Lead("", 1, false) == Child;
    var x := Visit(o, None, a, "x", Leaf("1"), Vertical, 2, true);
    assert x == [Vertical + Last + "x 1"];
    var xs := Children(o, None, a, a.entries, Vertical, 2, Some("x"));
    assert xs == x;
    assert ChildPrefix("", 1, false) == Vertical && LastKey(a.entries) == Some("x");
    assert Visit(o, None, root, "a", a, "", 1, false) == [Child + "a"] + xs;
    assert Visit(o, None, root, "b", Leaf("2"), "", 1, true) == [Last + "b 2"];
  }
}

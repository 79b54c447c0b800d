/** What the context tree promises: `want_log` is "some live node of the
    subtree is at the level", `log_tree` prints every such node exactly once
    at its relative depth, `log_backtrace` prints the chain of ancestors, and
    a scope entered and left again restores what it changed. */
module ContextTreeFacts {
  import opened LogContext

  // ---------------------------------------------------------------- live subtrees

  /** A node in the live subtree of an active child is in the live subtree of its parent. */
  lemma {:induction false} LinkedExtend(r: Registry, m: Node, c: Node)
    requires r.Tree() && m in r.nodes && c in r.nodes
    requires r.Linked(m, c) && c.active && c.parent != null
    ensures r.Linked(m, c.parent)
    decreases m.depth
  {
    if m != c {
      LinkedExtend(r, m.parent, c);
    }
  }

  /** Walking up from `m` to `n` takes exactly the depth difference. */
  lemma {:induction false} LinkedUp(r: Registry, m: Node, n: Node)
    requires r.Tree() && m in r.nodes && r.Linked(m, n)
    ensures n in r.nodes && n.depth <= m.depth && r.Up(m, m.depth - n.depth) == n
    decreases m.depth
  {
    if m != n {
      LinkedUp(r, m.parent, n);
    }
  }

  /** A node strictly below `n` in its live subtree lies below one active child of `n`. */
  lemma {:induction false} LinkedStep(r: Registry, m: Node, n: Node) returns (c: Node)
    requires r.Tree() && m in r.nodes && r.Linked(m, n) && m != n
    ensures c in r.nodes && c.parent == n && c.active && r.Linked(m, c)
    decreases m.depth
  {
    if m.parent == n {
      c := m;
    } else {
      c := LinkedStep(r, m.parent, n);
    }
  }

  // ---------------------------------------------------------------- want_log

  /** A subtree that wants logging holds a live node at the level. */
  lemma {:induction false} WantsWitness(r: Registry, n: Node, t: int) returns (m: Node)
    requires r.Tree() && n in r.nodes && r.Wants(n, t)
    ensures m in r.nodes && r.Linked(m, n) && m.level >= t
    decreases r.bound - n.depth
  {
    if n.level >= t {
      m := n;
    } else {
      var c :| c in n.children && r.Wants(c, t);
      assert c.parent == n && c.depth == n.depth + 1;
      m := WantsWitness(r, c, t);
      LinkedExtend(r, m, c);
    }
  }

  /** Every ancestor, within the live subtree, of a node that wants logging wants it too. */
  lemma {:induction false} LinkedWants(r: Registry, m: Node, n: Node, t: int)
    requires r.Valid() && m in r.nodes && n in r.nodes && r.Linked(m, n) && r.Wants(m, t)
    ensures r.Wants(n, t)
    decreases m.depth
  {
    if m != n {
      assert m in m.parent.children;
      assert r.Wants(m.parent, t);
      LinkedWants(r, m.parent, n, t);
    }
  }

  /** `want_log(t)` holds exactly when some node of the live subtree has level at least `t`. */
  lemma WantsIffLive(r: Registry, n: Node, t: int)
    requires r.Valid() && n in r.nodes
    ensures r.Wants(n, t) <==> exists m :: m in r.nodes && r.Linked(m, n) && m.level >= t
  {
    if r.Wants(n, t) {
      var m := WantsWitness(r, n, t);
    }
    if m :| m in r.nodes && r.Linked(m, n) && m.level >= t {
      LinkedWants(r, m, n, t);
    }
  }

  // ---------------------------------------------------------------- messages

  /** As written, `_log` fails on every callable message, whatever it would
      produce; the corrected expansion calls it on the node's arguments. */
  lemma CallableMessageFails(f: seq<string> -> (string, seq<string>), args: seq<string>)
    ensures ExpandAsWritten(Computed(f), args) == Err(UnboundLocal)
    ensures Expand(Computed(f), args) == f(args)
  {
  }

  /** The corrected expansion agrees with the code as written wherever that succeeds. */
  lemma ExpandAgrees(m: Message, args: seq<string>)
    ensures ExpandAsWritten(m, args).Ok? ==> Expand(m, args) == ExpandAsWritten(m, args).value
    ensures m.Text? ==> Expand(m, args) == (m.template, args)
  {
  }

  // ---------------------------------------------------------------- log_tree

  /** The records of a list of printed lines. */
  function Render(es: seq<Entry>, level: int): (rs: seq<Record>)
    ensures |rs| == |es|
    ensures forall k :: 0 <= k < |es| ==> rs[k] == es[k].0.Rendered("", es[k].1, level)
  {
    seq(|es|, k requires 0 <= k < |es| => es[k].0.Rendered("", es[k].1, level))
  }

  /** Each node occurs at most once in a list of printed lines. */
  ghost predicate Distinct(es: seq<Entry>)
  {
    forall i, j :: 0 <= i < j < |es| ==> es[i].0 != es[j].0
  }

  lemma DistinctConcat(a: seq<Entry>, b: seq<Entry>)
    requires Distinct(a) && Distinct(b)
    requires forall x, y :: x in a && y in b ==> x.0 != y.0
    ensures Distinct(a + b)
  {
  }

  /** The records a dump hands to the logger are its printed lines, rendered in order. */
  lemma {:induction false} LinesRender(d: Dump, level: int)
    ensures Lines(d, level) == Render(Entries(d), level)
    decreases d, 1
  {
    match d
    case Skip(_) =>
    case Show(n, indent, kids) =>
      LinesOfRender(kids, level);
  }

  lemma {:induction false} LinesOfRender(ds: seq<Dump>, level: int)
    ensures LinesOf(ds, level) == Render(EntriesOf(ds), level)
    decreases ds, 0
  {
    if ds != [] {
      LinesOfRender(ds[..|ds| - 1], level);
      LinesRender(ds[|ds| - 1], level);
    }
  }

  /** Soundness of a dump: every printed node is in the live subtree, passes
      the filter and is indented by its depth below the dumped node. */
  lemma {:induction false} DumpSound(r: Registry, n: Node, indent: nat, d: Dump)
    requires r.Tree() && n in r.nodes && r.Dumps(n, indent, d)
    ensures forall e :: e in Entries(d) ==>
      r.Shown(n, e.0) && e.0.depth >= n.depth && e.1 == indent + (e.0.depth - n.depth)
    decreases d, 1
  {
    if d.Show? {
      DumpsAllSound(r, n, n.children, indent, d.kids);
    }
  }

  /** Soundness of the children's dumps: every printed node sits strictly
      below `p`, below the child of `p` whose dump printed it. */
  lemma {:induction false} DumpsAllSound(r: Registry, p: Node, s: set<Node>, indent: nat, ds: seq<Dump>)
    requires r.Tree() && p in r.nodes && s <= p.children && r.DumpsAll(p, s, indent, ds)
    ensures forall e :: e in EntriesOf(ds) ==>
      r.Shown(p, e.0) && e.0.depth > p.depth && e.1 == indent + (e.0.depth - p.depth) &&
      r.Up(e.0, e.0.depth - p.depth - 1) in s
    decreases ds, 0
  {
    if ds != [] {
      var last := ds[|ds| - 1];
      var c := last.node;
      DumpsAllSound(r, p, s - {c}, indent, ds[..|ds| - 1]);
      DumpSound(r, c, indent + 1, last);
      forall e | e in Entries(last)
        ensures r.Shown(p, e.0) && e.0.depth > p.depth && r.Up(e.0, e.0.depth - p.depth - 1) == c
      {
        LinkedExtend(r, e.0, c);
        LinkedUp(r, e.0, c);
      }
    }
  }

  /** No node is printed twice by one dump. */
  lemma {:induction false} DumpDistinct(r: Registry, n: Node, indent: nat, d: Dump)
    requires r.Tree() && n in r.nodes && r.Dumps(n, indent, d)
    ensures Distinct(Entries(d))
    decreases d, 1
  {
    if d.Show? {
      DumpsAllSound(r, n, n.children, indent, d.kids);
      DumpsAllDistinct(r, n, n.children, indent, d.kids);
      DistinctConcat([(n, indent)], EntriesOf(d.kids));
    }
  }

  lemma {:induction false} DumpsAllDistinct(r: Registry, p: Node, s: set<Node>, indent: nat, ds: seq<Dump>)
    requires r.Tree() && p in r.nodes && s <= p.children && r.DumpsAll(p, s, indent, ds)
    ensures Distinct(EntriesOf(ds))
    decreases ds, 0
  {
    if ds != [] {
      var last := ds[|ds| - 1];
      var c := last.node;
      DumpsAllSound(r, p, s - {c}, indent, ds[..|ds| - 1]);
      DumpsAllDistinct(r, p, s - {c}, indent, ds[..|ds| - 1]);
      DumpSound(r, c, indent + 1, last);
      DumpDistinct(r, c, indent + 1, last);
      forall x, y | x in EntriesOf(ds[..|ds| - 1]) && y in Entries(last)
        ensures x.0 != y.0
      {
        LinkedUp(r, y.0, c);
      }
      DistinctConcat(EntriesOf(ds[..|ds| - 1]), Entries(last));
    }
  }

  /** The dump of a child in `s` is one of the dumps in `ds`, and what it prints is printed. */
  lemma {:induction false} DumpsAllHas(r: Registry, p: Node, s: set<Node>, indent: nat, ds: seq<Dump>, c: Node)
    returns (k: nat)
    requires r.Tree() && p in r.nodes && s <= p.children && r.DumpsAll(p, s, indent, ds) && c in s
    ensures k < |ds| && ds[k].node == c && r.Dumps(c, indent + 1, ds[k])
    ensures forall e :: e in Entries(ds[k]) ==> e in EntriesOf(ds)
    decreases |ds|
  {
    var last := ds[|ds| - 1];
    if last.node == c {
      k := |ds| - 1;
    } else {
      k := DumpsAllHas(r, p, s - {last.node}, indent, ds[..|ds| - 1], c);
      assert ds[..|ds| - 1][k] == ds[k];
    }
  }

  /** Completeness of a dump: every node of the live subtree that passes the filter is printed. */
  lemma {:induction false} DumpComplete(r: Registry, n: Node, indent: nat, d: Dump, m: Node)
    requires r.Valid() && n in r.nodes && r.Dumps(n, indent, d) && r.Shown(n, m)
    ensures exists e :: e in Entries(d) && e.0 == m
    decreases d
  {
    if m == n {
      assert Entries(d)[0] == (n, indent);
    } else {
      var c := LinkedStep(r, m, n);
      assert c in n.children;
      LinkedWants(r, m, c, DEBUG);
      assert r.Wants(n, DEBUG);
      var k := DumpsAllHas(r, n, n.children, indent, d.kids, c);
      DumpComplete(r, c, indent + 1, d.kids[k], m);
    }
  }

  /** `log_tree` in one statement: the records it appends are one line per
      node of the live subtree that passes the DEBUG filter, each exactly
      once, indented by its depth below the dumped node, in the order `d`
      visited them. */
  lemma LogTreeSpec(r: Registry, n: Node, indent: nat, d: Dump, level: int)
    requires r.Valid() && n in r.nodes && r.Dumps(n, indent, d)
    ensures Lines(d, level) == Render(Entries(d), level) && Distinct(Entries(d))
    ensures forall m :: m in r.nodes ==>
      (r.Shown(n, m) <==> exists e :: e in Entries(d) && e.0 == m)
    ensures forall e :: e in Entries(d) ==> e.1 == indent + (e.0.depth - n.depth)
  {
    LinesRender(d, level);
    DumpDistinct(r, n, indent, d);
    DumpSound(r, n, indent, d);
    forall m | m in r.nodes && r.Shown(n, m)
      ensures exists e :: e in Entries(d) && e.0 == m
    {
      DumpComplete(r, n, indent, d, m);
    }
  }

  // ---------------------------------------------------------------- log_backtrace

  /** `log_backtrace` prints the node and every ancestor up to the root, one
      line each, the `j`-th ancestor indented by `j`. */
  lemma {:induction false} BacktraceShape(r: Registry, n: Node, indent: nat, level: int)
    requires r.Tree() && n in r.nodes
    ensures |r.Backtrace(n, indent, level)| == n.depth + 1
    ensures forall j :: 0 <= j <= n.depth ==>
      r.Backtrace(n, indent, level)[j] == r.Up(n, j).Rendered("", indent + j, level)
    ensures r.Up(n, n.depth).parent == null
    decreases n.depth
  {
    if n.parent != null {
      BacktraceShape(r, n.parent, indent + 1, level);
      forall j | 1 <= j <= n.depth
        ensures r.Backtrace(n, indent, level)[j] == r.Up(n, j).Rendered("", indent + j, level)
      {
        assert r.Backtrace(n, indent, level)[j] == r.Backtrace(n.parent, indent + 1, level)[j - 1];
      }
      assert r.Up(n, n.depth) == r.Up(n.parent, n.parent.depth);
    }
  }

  // ---------------------------------------------------------------- with-statement

  /** A `with` block with an empty body over a node that is not yet
      entered: on the way out the current context,
      the stack of open scopes and the parent's children are as before, the
      node is inactive again and the only records are its two traces. */
  method EnterThenExit(r: Registry, n: Node, failed: bool)
    requires r.Valid() && n in r.nodes && !n.active
    modifies n`active, n`saved, n.Parents()`children, r`current, r`stack, r.sink
    ensures r.Valid() && !n.active
    ensures r.current == old(r.current) && r.stack == old(r.stack)
    ensures n.parent != null ==> n.parent.children == old(n.parent.children)
    ensures r.sink.records == old(r.sink.records) + n.Traced(">> ") + n.Traced(if failed then "<E " else "<< ")
    ensures old(r.Nested()) ==> r.Nested()
  {
    assert n.parent != null ==> n !in n.parent.children;
    var entered := n.Enter(r);
    var left := n.Exit(r, failed);
  }
}

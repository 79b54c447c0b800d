/** A model of the context tree of `logcontext`: nested diagnostic scopes
    (`_Context` nodes) linked under a per-strand "current" context, a single
    registered main anchor, and the renderers that dump the live tree or the
    chain of ancestors to a logging sink. One strand of execution is modelled. */
module LogContext {

  /** Severity of Python's `logging.DEBUG`, the default everywhere in the source. */
  const DEBUG: int := 10

  datatype Option<+T> = None | Some(value: T)

  /** The exceptions the core raises. */
  datatype Error =
    | EnteredTwice   // RuntimeError: `__enter__` on a node that is still active
    | NotEntered     // TypeError: `__exit__` resets the context variable with no token
    | NoContext      // LookupError: `context.get()` while the context variable is unset
    | NoMain         // AttributeError: `_main_context.main` read or deleted while absent
    | ParallelMain   // RuntimeError: `main_context` while a main anchor is registered
    | UnboundLocal   // UnboundLocalError: `_log` on a node whose message is callable

  datatype Result<+T> = Ok(value: T) | Err(error: Error)

  /** One call of `logger.log(level, text, *args)`: the text is the marker,
      the indentation and the node's message template; the template's
      arguments are handed over unformatted. */
  datatype Record = Record(level: int, text: string, args: seq<string>)

  /** One line of a tree dump: the node shown and its indentation. */
  type Entry = (Node, nat)

  function Spaces(n: nat): (s: string)
    ensures |s| == n && forall i :: 0 <= i < n ==> s[i] == ' '
  {
    if n == 0 then "" else Spaces(n - 1) + " "
  }

  /** A node's message: a `%`-template, or a callable that, given the node's
      arguments, produces the template and the arguments to format it with. */
  datatype Message = Text(template: string) | Computed(expand: seq<string> -> (string, seq<string>))

  /** The template and arguments `_log` hands over, as the source was
      evidently meant to compute them: a callable message is called. */
  function Expand(m: Message, args: seq<string>): (string, seq<string>)
  {
    match m
    case Text(t) => (t, args)
    case Computed(f) => f(args)
  }

  /** The same step as written: the callable branch reads the local `msg`
      before assigning it, so it always raises `UnboundLocalError`. */
  function ExpandAsWritten(m: Message, args: seq<string>): (r: Result<(string, seq<string>)>)
    ensures r.Ok? <==> m.Text?
  {
    match m
    case Text(t) => Ok((t, args))
    case Computed(_) => Err(UnboundLocal)
  }

  /** The record `_log` hands to the logger for a node with message `msg`. */
  function Line(level: int, add: string, indent: nat, msg: Message, args: seq<string>): Record
  {
    var (text, targs) := Expand(msg, args);
    Record(level, add + Spaces(indent) + text, targs)
  }

  /** The entry or exit trace of a node: one record at the trace level, none without one. */
  function TraceLine(trace: Option<int>, add: string, msg: Message, args: seq<string>): (rs: seq<Record>)
    ensures trace.None? ==> rs == []
    ensures trace.Some? ==> |rs| == 1 && rs[0].level == trace.value && rs[0].text == add + Expand(msg, args).0
  {
    if trace.Some? then [Line(trace.value, add, 0, msg, args)] else []
  }

  /** The calls one `log_tree` makes, in order: `Skip(n)` for a node whose
      subtree fails the filter (nothing printed, no recursion), and
      `Show(n, indent, kids)` for a node printed at `indent` followed by the
      calls on its children in the order the set was iterated. */
  datatype Dump = Skip(node: Node) | Show(node: Node, indent: nat, kids: seq<Dump>)

  /** The lines a dump prints, as (node, indentation) pairs, in print order. */
  function Entries(d: Dump): seq<Entry>
    decreases d, 1
  {
    match d
    case Skip(_) => []
    case Show(n, indent, kids) => [(n, indent)] + EntriesOf(kids)
  }

  function EntriesOf(ds: seq<Dump>): seq<Entry>
    decreases ds, 0
  {
    if ds == [] then [] else EntriesOf(ds[..|ds| - 1]) + Entries(ds[|ds| - 1])
  }

  /** The records a dump hands to the logger at severity `level`. */
  function Lines(d: Dump, level: int): seq<Record>
    decreases d, 1
  {
    match d
    case Skip(_) => []
    case Show(n, indent, kids) => [n.Rendered("", indent, level)] + LinesOf(kids, level)
  }

  function LinesOf(ds: seq<Dump>, level: int): seq<Record>
    decreases ds, 0
  {
    if ds == [] then [] else LinesOf(ds[..|ds| - 1], level) + Lines(ds[|ds| - 1], level)
  }

  /** Dumping one more child appends that child's records. */
  lemma LinesOfSnoc(pre: seq<Record>, ds: seq<Dump>, d: Dump, level: int)
    ensures pre + LinesOf(ds + [d], level) == pre + LinesOf(ds, level) + Lines(d, level)
  {
  }

  /** The logging sink: every record handed to `logger.log`, oldest first. */
  class Sink {
    var records: seq<Record>

    constructor ()
      ensures records == []
    {
      records := [];
    }
  }

  /** The module-level state of the source for one strand: the context
      variable `context` (null while unset), the anchor `_main_context.main`
      (null while the attribute is absent) and the logger. The ghost fields
      hold every node created so far, a bound on their depths and the stack
      of scopes entered and not yet left. */
  class Registry {
    var current: Node?
    var main: Node?
    const sink: Sink
    ghost var nodes: set<Node>
    ghost var bound: nat
    ghost var stack: seq<Node>

    /** The shape of the tree: parent links are acyclic (depth grows by one
        per link, up to `bound`), and a node's `children` are active nodes
        whose parent it is. */
    ghost predicate Tree()
      reads this, nodes
    {
      (forall n :: n in nodes ==> n.depth <= bound) &&
      (forall n {:trigger n.parent} :: n in nodes ==>
         (n.parent == null ==> n.depth == 0) &&
         (n.parent != null ==> n.parent in nodes && n.depth == n.parent.depth + 1)) &&
      (forall n, c :: n in nodes && c in n.children ==> c in nodes && c.parent == n && c.active)
    }

    /** The registry invariant: the tree, every active node linked into its
        parent's children, and every reference held by the registry or by a
        token to a known node. */
    ghost predicate Valid()
      reads this, nodes
    {
      Tree() &&
      (forall n {:trigger n.active} :: n in nodes && n.active && n.parent != null ==> n in n.parent.children) &&
      (forall n {:trigger n.saved} :: n in nodes && n.active && n.saved != null ==> n.saved in nodes) &&
      (current != null ==> current in nodes) &&
      (main != null ==> main in nodes) &&
      (forall i :: 0 <= i < |stack| ==> stack[i] in nodes)
    }

    /** Properly nested scopes on one strand: every open scope is active and
        remembers the scope opened just before it as the value to restore,
        and the current context is the most recently opened one. */
    ghost predicate Nested()
      reads this, nodes
    {
      (forall i :: 0 <= i < |stack| ==> stack[i] in nodes && stack[i].active) &&
      (stack != [] ==> stack[0].saved == null) &&
      (forall i, j :: 0 <= i < j < |stack| ==>
         stack[i] != stack[j] && (j == i + 1 ==> stack[j].saved == stack[i])) &&
      current == (if stack == [] then null else stack[|stack| - 1])
    }

    constructor ()
      ensures Valid() && Nested()
      ensures current == null && main == null && nodes == {} && stack == []
      ensures fresh(sink) && sink.records == []
    {
      current := null;
      main := null;
      sink := new Sink();
      nodes := {};
      bound := 0;
      stack := [];
    }

    /** `n` is the most recently entered scope recorded in `st`. */
    ghost predicate Top(st: seq<Node>, n: Node)
    {
      st != [] && st[|st| - 1] == n
    }

    /** `context.set(n)`: `n` becomes the current context. */
    method Push(n: Node)
      requires Valid() && n in nodes && n.active && n.saved == current
      modifies this`current, this`stack
      ensures Valid() && current == n && stack == old(stack) + [n]
      ensures old(Nested()) && n !in old(stack) ==> Nested()
    {
      current := n;
      stack := stack + [n];
    }

    /** `context.reset(token)` with the token taken when `n` was entered:
        the current context goes back to `to`, the value that token saved. */
    method Restore(n: Node, to: Node?)
      requires Valid() && (to != null ==> to in nodes)
      modifies this`current, this`stack
      ensures Valid() && current == to
      ensures Top(old(stack), n) ==> stack == old(stack)[..|old(stack)| - 1]
      ensures !Top(old(stack), n) ==> stack == old(stack)
      ensures old(Nested()) && Top(old(stack), n) && to == n.saved ==> Nested() && n !in stack
    {
      current := to;
      if Top(stack, n) {
        stack := stack[..|stack| - 1];
      }
    }

    /** `want_log(t)`: the node or one of its live descendants has level at least `t`. */
    ghost predicate Wants(n: Node, t: int)
      reads this, nodes
      requires Tree() && n in nodes
      decreases bound - n.depth
    {
      n.level >= t || exists c :: c in n.children && Wants(c, t)
    }

    /** `m` lies in the live subtree rooted at `n`: walking up from `m`, every
        node before `n` is active, so it is linked into its parent's children. */
    ghost predicate Linked(m: Node, n: Node)
      reads this, nodes
      requires Tree() && m in nodes
      decreases m.depth
    {
      m == n || (m.active && m.parent != null && Linked(m.parent, n))
    }

    /** `m` is printed by a tree dump of `n`: it is in the live subtree and
        passes the DEBUG filter that `log_tree` applies. */
    ghost predicate Shown(n: Node, m: Node)
      reads this, nodes
      requires Tree()
    {
      m in nodes && Linked(m, n) && Wants(m, DEBUG)
    }

    /** The ancestor `j` parent links above `m`. */
    ghost function Up(m: Node, j: nat): (a: Node)
      reads this, nodes
      requires Tree() && m in nodes && j <= m.depth
      ensures a in nodes && a.depth == m.depth - j
      decreases j
    {
      if j == 0 then m else Up(m.parent, j - 1)
    }

    /** `d` is a run of `n.log_tree(indent)`: the subtree of `n` fails the
        DEBUG filter and nothing happens, or `n` is printed at `indent` and
        every child is dumped once, at `indent + 1`, in some order. */
    ghost predicate Dumps(n: Node, indent: nat, d: Dump)
      reads this, nodes
      requires Tree() && n in nodes
      decreases bound - n.depth, 1, 0
    {
      d.node == n &&
      if Wants(n, DEBUG) then d.Show? && d.indent == indent && DumpsAll(n, n.children, indent, d.kids)
      else d.Skip?
    }

    /** `ds` dumps each node of `s`, children of `p`, exactly once at `indent + 1`. */
    ghost predicate DumpsAll(p: Node, s: set<Node>, indent: nat, ds: seq<Dump>)
      reads this, nodes
      requires Tree() && p in nodes && s <= p.children
      decreases bound - p.depth, 0, |ds|
    {
      if ds == [] then s == {}
      else
        var c := ds[|ds| - 1].node;
        c in s && DumpsAll(p, s - {c}, indent, ds[..|ds| - 1]) && Dumps(c, indent + 1, ds[|ds| - 1])
    }

    /** A child dumped after the children in `s` extends the run over `s`. */
    lemma DumpsAllSnoc(p: Node, s: set<Node>, c: Node, indent: nat, ds: seq<Dump>, d: Dump)
      requires Tree() && p in nodes && s <= p.children && c in p.children && c !in s
      requires DumpsAll(p, s, indent, ds) && Dumps(c, indent + 1, d)
      ensures DumpsAll(p, s + {c}, indent, ds + [d])
    {
    }

    /** What `n.log_backtrace(level)` prints, starting at `indent`. */
    ghost function Backtrace(n: Node, indent: nat, level: int): seq<Record>
      reads this, nodes
      requires Tree() && n in nodes
      decreases n.depth
    {
      [n.Rendered("", indent, level)] +
      (if n.parent == null then [] else Backtrace(n.parent, indent + 1, level))
    }

    /** One step of the backtrace: the node's own record, then its parent's backtrace. */
    lemma BacktraceStep(pre: seq<Record>, n: Node, indent: nat, level: int)
      requires Tree() && n in nodes
      ensures pre + Backtrace(n, indent, level) ==
        pre + [n.Rendered("", indent, level)] + (if n.parent == null then [] else Backtrace(n.parent, indent + 1, level))
    {
    }

    /** The parent of a node created under the current context, as a frame. */
    function CurrentSet(): set<Node>
      reads this
    {
      if current == null then {} else {current}
    }

    /** `current_context()`: `context.get()`, which fails while the variable is unset. */
    function CurrentContext(): (res: Result<Node>)
      reads this, nodes
      ensures Nested() ==> (res.Ok? <==> stack != [])
      ensures Nested() && res.Ok? ==> res.value == stack[|stack| - 1]
      ensures res.Err? ==> res.error == NoContext
    {
      if current == null then Err(NoContext) else Ok(current)
    }

    /** Entering `context_of(msg, *args, level=level, trace_level=trace)`: a new
        node under the current context, entered at once. Without a current
        context `context.get()` fails before any node exists. */
    method ContextOf(msg: Message, args: seq<string>, level: int, trace: Option<int>) returns (res: Result<Node>)
      requires Valid()
      modifies this, CurrentSet()`children, sink
      ensures Valid() && main == old(main)
      ensures old(current) == null ==>
        res == Err(NoContext) && current == null && stack == old(stack) &&
        nodes == old(nodes) && sink.records == old(sink.records)
      ensures old(current) != null ==>
        res.Ok? && fresh(res.value) && nodes == old(nodes) + {res.value} &&
        res.value.parent == old(current) && res.value.msg == msg && res.value.args == args &&
        res.value.level == level && res.value.trace == trace &&
        res.value.active && res.value.saved == old(current) && res.value.children == {} &&
        old(current).children == old(current.children) + {res.value} &&
        current == res.value && stack == old(stack) + [res.value] &&
        sink.records == old(sink.records) + TraceLine(trace, ">> ", msg, args)
      ensures old(Nested()) ==> Nested()
    {
      if current == null {
        return Err(NoContext);
      }
      var n := new Node(this, current, msg, args, level, trace);
      var entered := n.Enter(this);
      res := entered;
    }

    /** Entering `main_context(msg, ...)`: a new root node is entered first;
        then, if a main anchor is already registered, the node is left again
        as failed and the call fails, otherwise the node becomes the anchor. */
    method MainContext(msg: Message, args: seq<string>, level: int, trace: Option<int>) returns (res: Result<Node>)
      requires Valid()
      modifies this, sink
      ensures Valid()
      ensures old(main) != null ==>
        res == Err(ParallelMain) && main == old(main) &&
        current == old(current) && stack == old(stack) &&
        sink.records == old(sink.records) + TraceLine(trace, ">> ", msg, args) + TraceLine(trace, "<E ", msg, args)
      ensures old(main) == null ==>
        res.Ok? && fresh(res.value) && main == res.value && nodes == old(nodes) + {res.value} &&
        res.value.parent == null && res.value.msg == msg && res.value.args == args &&
        res.value.level == level && res.value.trace == trace &&
        res.value.active && res.value.saved == old(current) && res.value.children == {} &&
        current == res.value && stack == old(stack) + [res.value] &&
        sink.records == old(sink.records) + TraceLine(trace, ">> ", msg, args)
      ensures old(Nested()) ==> Nested()
    {
      var n := new Node(this, null, msg, args, level, trace);
      var entered := n.Enter(this);
      if main != null {
        var left := n.Exit(this, true);
        return Err(ParallelMain);
      }
      main := n;
      res := Ok(n);
    }

    /** Leaving `main_context`: the `finally` clause deletes the anchor (failing
        when it is already gone, which makes the exit a failed one), then the
        node is exited. An error of the exit itself takes precedence. */
    method LeaveMain(n: Node, failed: bool) returns (res: Result<()>)
      requires Valid() && n in nodes
      modifies this`main, this`current, this`stack, n`active, n`saved, n.Parents()`children, sink
      ensures Valid() && main == null && !n.active
      ensures n.parent != null ==>
        n.parent.children == if old(n.active) then old(n.parent.children) - {n} else old(n.parent.children)
      ensures res == (if !old(n.active) then Err(NotEntered) else if old(main) == null then Err(NoMain) else Ok(()))
      ensures old(n.active) ==>
        current == old(n.saved) &&
        sink.records == old(sink.records) + n.Traced(if failed || old(main) == null then "<E " else "<< ")
      ensures !old(n.active) ==> current == old(current) && sink.records == old(sink.records)
      ensures old(n.active) && Top(old(stack), n) ==> stack == old(stack)[..|old(stack)| - 1]
      ensures !(old(n.active) && Top(old(stack), n)) ==> stack == old(stack)
      ensures old(Nested()) && Top(old(stack), n) ==> Nested()
    {
      var missing := main == null;
      main := null;
      var left := n.Exit(this, failed || missing);
      if left.Err? {
        res := Err(left.error);
      } else if missing {
        res := Err(NoMain);
      } else {
        res := Ok(());
      }
    }

    /** Module-level `log_tree(level)`: the tree dump of the main anchor. */
    method LogTree(level: int) returns (res: Result<()>, ghost d: Option<Dump>)
      requires Valid()
      modifies sink
      ensures main == null ==> res == Err(NoMain) && d == None && sink.records == old(sink.records)
      ensures main != null ==>
        res == Ok(()) && d.Some? && Dumps(main, 0, d.value) &&
        sink.records == old(sink.records) + Lines(d.value, level)
    {
      if main == null {
        return Err(NoMain), None;
      }
      var dump := main.LogTree(this, 0, level);
      res, d := Ok(()), Some(dump);
    }

    /** Module-level `log_backtrace(level)`: the backtrace of the current context. */
    method LogBacktrace(level: int) returns (res: Result<()>)
      requires Valid()
      modifies sink
      ensures current == null ==> res == Err(NoContext) && sink.records == old(sink.records)
      ensures current != null ==>
        res == Ok(()) && sink.records == old(sink.records) + Backtrace(current, 0, level)
    {
      if current == null {
        return Err(NoContext);
      }
      current.LogBacktrace(this, level);
      res := Ok(());
    }
  }

  /** `_Context`: one scope of the context tree. */
  class Node {
    const parent: Node?
    var children: set<Node>
    const msg: Message
    const args: seq<string>
    const level: int
    const trace: Option<int>
    /** `_ctx is not None`: the node has been entered and not yet exited. */
    var active: bool
    /** The value of the context variable that `_ctx`'s token restores on exit. */
    var saved: Node?
    ghost const depth: nat

    /** `__init__`; the ghost part records the new node in the registry. */
    constructor (r: Registry, parent: Node?, msg: Message, args: seq<string>, level: int, trace: Option<int>)
      requires r.Valid() && (parent != null ==> parent in r.nodes)
      modifies r
      ensures this.parent == parent && this.msg == msg && this.args == args
      ensures this.level == level && this.trace == trace
      ensures children == {} && !active && saved == null
      ensures r.Valid() && r.nodes == old(r.nodes) + {this}
      ensures r.current == old(r.current) && r.main == old(r.main) && r.stack == old(r.stack)
      ensures old(r.Nested()) ==> r.Nested()
    {
      this.parent := parent;
      this.children := {};
      this.msg := msg;
      this.args := args;
      this.level := level;
      this.trace := trace;
      this.active := false;
      this.saved := null;
      this.depth := if parent == null then 0 else parent.depth + 1;
      new;
      assert forall i :: 0 <= i < |r.stack| ==> r.stack[i] != this;
      r.nodes := r.nodes + {this};
      if r.bound < depth {
        r.bound := depth;
      }
    }

    /** The parent, as a frame: the only other node whose `children` entering and exiting change. */
    function Parents(): set<Node>
    {
      if parent == null then {} else {parent}
    }

    /** The record `_log(indent, add, level)` emits for this node. */
    function Rendered(add: string, indent: nat, level: int): Record
    {
      Line(level, add, indent, msg, args)
    }

    /** The entry or exit trace of this node. */
    function Traced(add: string): seq<Record>
    {
      TraceLine(trace, add, msg, args)
    }

    /** `_log`: one record, at `level`, of the marker, the indentation and the message. */
    method Log(r: Registry, indent: nat, add: string, level: int)
      modifies r.sink
      ensures r.sink.records == old(r.sink.records) + [Rendered(add, indent, level)]
      ensures r.sink.records[|r.sink.records| - 1].text == add + Spaces(indent) + Expand(msg, args).0
    {
      var (text, targs) := Expand(msg, args);
      r.sink.records := r.sink.records + [Record(level, add + Spaces(indent) + text, targs)];
    }

    /** The link half of `__enter__`: join the parent's children and take the token. */
    method Link(r: Registry)
      requires r.Valid() && this in r.nodes && !active
      modifies this`active, this`saved, Parents()`children
      ensures r.Valid() && active && saved == r.current
      ensures parent != null ==> parent.children == old(parent.children) + {this}
      ensures old(r.Nested()) ==> r.Nested() && this !in r.stack
    {
      ghost var wasNested := r.Nested();
      if wasNested {
        forall i | 0 <= i < |r.stack| ensures r.stack[i] != this {
          assert r.stack[i].active;
        }
      }
      if parent != null {
        parent.children := parent.children + {this};
      }
      saved := r.current;
      active := true;
    }

    /** The unlink half of `__exit__`: leave the parent's children and drop the token. */
    method Unlink(r: Registry)
      requires r.Valid() && this in r.nodes && active
      modifies this`active, this`saved, Parents()`children
      ensures r.Valid() && !active && saved == null
      ensures parent != null ==> parent.children == old(parent.children) - {this}
      ensures old(r.Nested()) && this !in r.stack ==> r.Nested()
    {
      if parent != null {
        parent.children := parent.children - {this};
      }
      active := false;
      saved := null;
    }

    /** `__enter__`. */
    method Enter(r: Registry) returns (res: Result<Node>)
      requires r.Valid() && this in r.nodes
      modifies this`active, this`saved, Parents()`children, r`current, r`stack, r.sink
      ensures r.Valid()
      ensures old(active) ==>
        res == Err(EnteredTwice) && active && saved == old(saved) &&
        r.current == old(r.current) && r.stack == old(r.stack) &&
        (parent != null ==> parent.children == old(parent.children)) &&
        r.sink.records == old(r.sink.records)
      ensures !old(active) ==>
        res == Ok(this) && active && saved == old(r.current) && r.current == this &&
        r.stack == old(r.stack) + [this] &&
        (parent != null ==> parent.children == old(parent.children) + {this}) &&
        r.sink.records == old(r.sink.records) + Traced(">> ")
      ensures old(r.Nested()) ==> r.Nested()
    {
      if active {
        return Err(EnteredTwice);
      }
      Link(r);
      r.Push(this);
      if trace.Some? {
        Log(r, 0, ">> ", trace.value);
      }
      res := Ok(this);
    }

    /** `__exit__`; `failed` says whether an exception is propagating. */
    method Exit(r: Registry, failed: bool) returns (res: Result<()>)
      requires r.Valid() && this in r.nodes
      modifies this`active, this`saved, Parents()`children, r`current, r`stack, r.sink
      ensures r.Valid()
      ensures !old(active) ==>
        res == Err(NotEntered) && !active && r.current == old(r.current) &&
        r.stack == old(r.stack) &&
        (parent != null ==> parent.children == old(parent.children)) &&
        r.sink.records == old(r.sink.records)
      ensures old(active) ==>
        res == Ok(()) && !active && r.current == old(saved) &&
        (parent != null ==> parent.children == old(parent.children) - {this}) &&
        r.sink.records == old(r.sink.records) + Traced(if failed then "<E " else "<< ")
      ensures old(active) && r.Top(old(r.stack), this) ==> r.stack == old(r.stack)[..|old(r.stack)| - 1]
      ensures old(active) && !r.Top(old(r.stack), this) ==> r.stack == old(r.stack)
      ensures old(r.Nested()) && r.Top(old(r.stack), this) ==> r.Nested()
    {
      if !active {
        return Err(NotEntered);
      }
      r.Restore(this, saved);
      if trace.Some? {
        Log(r, 0, if failed then "<E " else "<< ", trace.value);
      }
      Unlink(r);
      res := Ok(());
    }

    /** `want_log(t)`. */
    method WantLog(r: Registry, t: int) returns (b: bool)
      requires r.Tree() && this in r.nodes
      ensures b == r.Wants(this, t)
      decreases r.bound - depth
    {
      if level >= t {
        return true;
      }
      var rest := children;
      while rest != {}
        invariant rest <= children
        invariant forall c :: c in children - rest ==> !r.Wants(c, t)
        decreases |rest|
      {
        var c :| c in rest;
        assert c in children && c.parent == this && c.depth == depth + 1;
        var w := c.WantLog(r, t);
        if w {
          return true;
        }
        rest := rest - {c};
      }
      return false;
    }

    /** `log_tree(indent, level)`; `d` records the calls it made. */
    method LogTree(r: Registry, indent: nat, level: int) returns (ghost d: Dump)
      requires r.Tree() && this in r.nodes
      modifies r.sink
      ensures r.Tree()
      ensures r.Dumps(this, indent, d)
      ensures r.sink.records == old(r.sink.records) + Lines(d, level)
      decreases r.bound - depth, 1
    {
      var w := WantLog(r, DEBUG);
      if !w {
        return Skip(this);
      }
      Log(r, indent, "", level);
      ghost var ds := LogChildren(r, indent, level);
      d := Show(this, indent, ds);
    }

    /** The loop of `log_tree` over the children, each dumped at `indent + 1`. */
    method LogChildren(r: Registry, indent: nat, level: int) returns (ghost ds: seq<Dump>)
      requires r.Tree() && this in r.nodes
      modifies r.sink
      ensures r.Tree()
      ensures r.DumpsAll(this, children, indent, ds)
      ensures r.sink.records == old(r.sink.records) + LinesOf(ds, level)
      decreases r.bound - depth, 0
    {
      ds := [];
      ghost var done: set<Node> := {};
      var rest := children;
      while rest != {}
        invariant r.Tree()
        invariant done + rest == children && done !! rest
        invariant r.DumpsAll(this, done, indent, ds)
        invariant r.sink.records == old(r.sink.records) + LinesOf(ds, level)
        decreases |rest|
      {
        var c :| c in rest;
        assert c in children && c.parent == this && c.depth == depth + 1;
        ghost var sub := c.LogTree(r, indent + 1, level);
        r.DumpsAllSnoc(this, done, c, indent, ds, sub);
        LinesOfSnoc(old(r.sink.records), ds, sub, level);
        ds := ds + [sub];
        done := done + {c};
        rest := rest - {c};
      }
    }

    /** `log_backtrace(level)`: the loop up the parent chain. */
    method LogBacktrace(r: Registry, level: int)
      requires r.Tree() && this in r.nodes
      modifies r.sink
      ensures r.sink.records == old(r.sink.records) + r.Backtrace(this, 0, level)
    {
      var ctx: Node? := this;
      var indent: nat := 0;
      while ctx != null
        invariant ctx != null ==> ctx in r.nodes
        invariant old(r.sink.records) + r.Backtrace(this, 0, level)
            == r.sink.records + (if ctx == null then [] else r.Backtrace(ctx, indent, level))
        decreases if ctx == null then 0 else ctx.depth + 1
      {
        r.BacktraceStep(r.sink.records, ctx, indent, level);
        ctx.Log(r, indent, "", level);
        indent := indent + 1;
        ctx := ctx.parent;
      }
    }
  }
}

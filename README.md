# logcontext: the context tree, in Dafny

`logcontext` lets a program mark interesting regions with `with context_of(msg, *args)`.
Each region is a `_Context` node linked under the strand's current context, which is
held in the context variable `context`. A single `main_context()` registers the root
as the main anchor. On demand the live tree is dumped to the logger (`log_tree`), and
so is the chain of ancestors of the current context (`log_backtrace`). A subtree is
shown only if it or one of its live descendants is "interesting enough"
(`want_log`).

This project models `logcontext/_main.py` for one strand of execution:

- `LogContext.Node` is `_Context`. It has the parent link, the `children` set, the
  message and its arguments, the visibility level and the optional trace level.
  `_ctx` becomes the pair `active` / `saved`: whether the node is entered, and the
  value its token restores.
- `LogContext.Registry` holds the module globals. `current` is the context variable,
  with `null` for "unset". `main` is `_main_context.main`, with `null` for "attribute
  absent". `sink` collects every `logger.log` call as a `Record` of level, text and
  arguments. Ghost state keeps every node created, a depth bound, and the stack of
  scopes entered and not yet left.
- `Registry.Valid` is the tree invariant:
  - parent links are acyclic, because depth grows by one per link;
  - a node's `children` are exactly its active children.
- `Registry.Nested` says scopes nest properly: the current context is the innermost
  open scope, and every open scope's token restores the one opened before it.
  Entering and exiting preserve both.
- Errors are a `Result` with the exception the source raises:
  - `EnteredTwice`: RuntimeError.
  - `NotEntered`: the TypeError of `context.reset(None)`.
  - `NoContext`: LookupError.
  - `NoMain`: AttributeError.
  - `ParallelMain`: RuntimeError.
  - `UnboundLocal`: UnboundLocalError.
- The `ContextTreeFacts` module proves what the operations promise:
  - `want_log(t)` holds exactly when some node of the live subtree has level ≥ `t`.
  - `log_tree` prints every live node that passes the filter exactly once, indented
    by its depth below the dumped node.
  - `log_backtrace` prints the node and each ancestor up to the root, the `j`-th one
    indented by `j`.
  - A scope entered and left again restores the current context, the scope stack
    and the parent's children.

Where the code and its documentation differ, the model follows the code, except for
the callable-message defect listed under "## Findings", which it corrects:

- `log_tree(level)` filters with `want_log()` at its default of DEBUG
  (`logcontext/_main.py:50`). `level` is only the severity of the records it emits.
  The package docstring suggests that `level` also selects which subtrees are shown.
- `context_of` outside any context raises LookupError from `context.get()`
  (`logcontext/_main.py:73`). It does not create a root node.
- `main_context` enters its node before it checks for an existing anchor. A second
  call therefore emits the entry trace and then a failed exit trace before it raises.

## Model

| member | source | states |
|---|---|---|
| LogContext.Spaces | logcontext/_main.py:47 | `" "*indent` is exactly `indent` space characters |
| LogContext.TraceLine | logcontext/_main.py:29-30 | with no trace level there is no record; otherwise there is one record at the trace level whose text is the marker followed by the expanded message |
| LogContext.ExpandAsWritten | logcontext/_main.py:43-46 | as written, expanding a message succeeds exactly when it is a plain template, not a callable |
| LogContext.Registry.constructor | logcontext/_main.py:7-11 | at start the context variable is unset, there is no main anchor, the logger has no records, and the invariants hold |
| LogContext.Registry.Push | logcontext/_main.py:28 | `context.set(n)` makes `n` current and pushes it; nesting is kept when `n` was not already open |
| LogContext.Registry.Restore | logcontext/_main.py:35 | `context.reset(token)` makes the token's saved value current; when `n` is the innermost scope it is popped and nesting is kept |
| LogContext.Node.constructor | logcontext/_main.py:14-21 | a new node has the given parent, message, arguments and levels, no children, and is not entered; it joins the registry without disturbing the invariants |
| LogContext.Node.Log | logcontext/_main.py:42-47 | `_log` appends exactly one record at `level`: marker, `indent` spaces, then the expanded message, with its arguments |
| LogContext.Node.Link | logcontext/_main.py:26-28 | entering adds the node to its parent's children and saves the current context in the token; the tree invariant is kept |
| LogContext.Node.Unlink | logcontext/_main.py:38-40 | exiting removes the node from its parent's children and drops the token; the tree invariant is kept |
| LogContext.Node.Enter | logcontext/_main.py:23-32 | an active node fails with RuntimeError and nothing changes; otherwise the node joins its parent's children, becomes current, saves the previous current context, and emits the `">> "` trace; proper nesting is preserved |
| LogContext.Node.Exit | logcontext/_main.py:34-40 | an inactive node fails with the TypeError of `reset(None)` and nothing changes; otherwise the saved context is restored, the `"<< "` or `"<E "` trace is emitted, the node leaves its parent's children, and an innermost scope is popped with nesting preserved |
| LogContext.Node.WantLog | logcontext/_main.py:55-61 | the loop with early return computes exactly the recursive "this node or a live descendant is at level `t`" |
| LogContext.Node.LogTree | logcontext/_main.py:49-53 | the records appended are exactly those of a dump of the node: nothing if the subtree fails the DEBUG filter, otherwise the node at `indent` and then each child's dump at `indent + 1`, in some order |
| LogContext.Node.LogChildren | logcontext/_main.py:52-53 | the loop over `children` dumps each child exactly once, in whatever order the set yields, and appends their records in that order |
| LogContext.Node.LogBacktrace | logcontext/_main.py:63-69 | the loop up the parent chain appends exactly the backtrace records: the node, then each ancestor, one more space of indentation per step |
| LogContext.Registry.CurrentContext | logcontext/_main.py:100-101 | fails with LookupError exactly when no scope is open (under proper nesting); otherwise returns the innermost open scope |
| LogContext.Registry.ContextOf | logcontext/_main.py:71-74 | without a current context it fails with LookupError and nothing is created; otherwise a fresh node under the current context is entered and becomes current, with its entry trace |
| LogContext.Registry.MainContext | logcontext/_main.py:76-84 | a fresh root node is entered; if an anchor already exists it is exited as failed, the call fails with RuntimeError, and anchor, current context and stack are unchanged; otherwise the node, with no children, becomes the anchor and the current context |
| LogContext.Registry.LeaveMain | logcontext/_main.py:85-86 | the `finally` clause deletes the anchor, failing with AttributeError if it is absent (the exit then counts as failed); then the node is exited, leaving its parent's children if it was active, and an exit error takes precedence |
| LogContext.Registry.LogTree | logcontext/_main.py:96-97 | without an anchor it fails with AttributeError and logs nothing; otherwise the anchor's tree is dumped from indentation 0 |
| LogContext.Registry.LogBacktrace | logcontext/_main.py:89-93 | without a current context it fails with LookupError and logs nothing; otherwise the current context's backtrace is appended |
| ContextTreeFacts.WantsIffLive | logcontext/_main.py:55-61 | `want_log(t)` holds if and only if some node of the live subtree, the node included, has level at least `t` |
| ContextTreeFacts.WantsWitness | logcontext/_main.py:55-61 | a subtree that wants logging contains a live node at the level |
| ContextTreeFacts.LinkedWants | logcontext/_main.py:58-60 | if a node wants logging, so does every ancestor up to the subtree root |
| ContextTreeFacts.LinkedExtend | logcontext/_main.py:52-53 | a node in the live subtree of an active child is in the live subtree of the parent |
| ContextTreeFacts.LinkedStep | logcontext/_main.py:52-53 | a node strictly inside a live subtree lies in the live subtree of an active child of its root |
| ContextTreeFacts.LinkedUp | logcontext/_main.py:69 | walking up from a node of a live subtree reaches its root after exactly the depth difference |
| ContextTreeFacts.DumpSound | logcontext/_main.py:49-53 | every node a dump prints is in the live subtree, passes the DEBUG filter, and is indented by its depth below the dumped node |
| ContextTreeFacts.DumpsAllSound | logcontext/_main.py:52-53 | every node printed by the children's dumps lies strictly below, under the child whose dump printed it |
| ContextTreeFacts.DumpComplete | logcontext/_main.py:49-53 | every node of the live subtree that passes the filter is printed |
| ContextTreeFacts.DumpDistinct | logcontext/_main.py:49-53 | no node is printed twice by one dump |
| ContextTreeFacts.LinesRender | logcontext/_main.py:51 | the records a dump emits are its printed lines, rendered in order at the requested severity |
| ContextTreeFacts.LogTreeSpec | logcontext/_main.py:49-53 | together: records are the rendered lines; a node is printed if and only if it is live and passes the filter; it is printed once, at its relative depth |
| ContextTreeFacts.BacktraceShape | logcontext/_main.py:63-69 | the backtrace has depth + 1 records; the `j`-th is the `j`-th ancestor indented by `j`; the last is the root |
| ContextTreeFacts.EnterThenExit | logcontext/_main.py:23-40 | entering and then exiting a node leaves the current context, the scope stack and the parent's children as they were; the only records are the two traces |
| ContextTreeFacts.CallableMessageFails | logcontext/_main.py:43-44 | as written, every callable message fails with UnboundLocalError; the corrected expansion returns the callable's result |
| ContextTreeFacts.ExpandAgrees | logcontext/_main.py:43-46 | the corrected expansion agrees with the code as written wherever that succeeds; a plain template expands to itself and the node's arguments |

## Left out

- Concurrency is not modelled. The model covers one strand, so it leaves out:
  - the per-task copy of the context variable;
  - the per-thread `threading.local` anchor;
  - unsynchronised updates to `children` from several strands.
- The `logging` library is not modelled: logger levels, handlers and `%`-formatting.
  A record keeps the template text and its arguments unformatted.
- The generator plumbing of `@contextmanager` is not modelled. Entering `context_of`
  or `main_context` is `Registry.ContextOf` or `Registry.MainContext`. Leaving is
  `Node.Exit` or `Registry.LeaveMain`. The body in between is the caller's code.
- Python's own token errors for `ContextVar.reset` are not modelled. These are the
  ValueError for a token from another `Context` and the RuntimeError for a token
  used twice. One strand cannot reach them, because `__exit__` drops the token.
- The KeyError of `children.remove` is not modelled. The tree invariant makes it
  unreachable.
- The text of the RuntimeError messages is not modelled, only which error is raised.
- A callable message is modelled as a total function. A callable that raises, or
  that returns something other than a pair, is not modelled.
- Nodes are never collected: the ghost set of nodes only grows.
- Node.Log: it and its callers `Node.Enter`, `Node.Exit`, `Node.LogTree` and
  `Node.LogBacktrace` use the corrected expansion `Expand`, so a callable message is
  logged. As written, `_log` raises UnboundLocalError instead (see "## Findings").
  A traced `__enter__` then fails after `children.add` and `context.set`, and `with`
  never calls `__exit__`. The node stays linked, stays current and keeps its token.
  A traced `__exit__` fails after the reset and leaves the node linked and active.
  `log_tree` and `log_backtrace` stop at the first callable message and keep only the
  records logged before it. The model does not capture these partial states.
- Default arguments of the source become explicit parameters: `level=logging.DEBUG`
  and `trace_level=None` of `_Context`, `name="MAIN"` of `main_context`, `indent=0`
  and `add=""` of `_log`, and the `level` defaults of `want_log`, `log_tree` and
  `log_backtrace`. `want_log()` inside `log_tree` is modelled with DEBUG passed
  explicitly.
- `logcontext/__init__.py` (re-exports and documentation) and `example/demo.py` are
  not part of this model.

## Findings

| source | as written | input that shows it | evidently intended | confidence | as-written member | corrected member |
|---|---|---|---|---|---|---|
| logcontext/_main.py:43-44 | `_log` calls the local `msg` before assigning it, so a callable message always raises UnboundLocalError | any node whose message is callable, `Computed(f)` for any `f` | call the node's own callable on its arguments and log the template and arguments it returns | high; not executed | LogContext.ExpandAsWritten | LogContext.Expand |

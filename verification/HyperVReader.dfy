/** The Hyper-V adapter's traversal of a host or a failover cluster: src/infrastructure/hyperv/host_reader.py:87-164. */
module HyperVReader {
  import opened Common
  import opened Domain
  import opened Streams

  /** One node: its name, its reported state and what happens when it is contacted. */
  datatype Node = Node(name: string, state: string, reply: Reply)

  datatype Reply =
    | Answered(rows: seq<RawObject>)
    | AuthRefused(message: string)
    | Failed(message: string)
    | Broke(message: string)   // an exception the adapter does not know

  datatype FailedNode = FailedNode(name: string, reason: string)

  /** An entry of the cluster's own node list; Python's None and "" are both "no name" and "no state". */
  datatype NodeEntry = NodeEntry(name: Option<string>, state: Option<string>)

  /** What asking the cluster for its nodes gives. */
  datatype NodeList =
    | Listed(entries: seq<NodeEntry>)
    | ListAuthRefused(message: string)
    | ListFailed(message: string)
    | ListBroke(message: string)

  const NO_NODES := "no cluster nodes"

  predicate IsUp(node: Node) {
    Lower(node.state) == "up"
  }

  predicate Truthy(text: Option<string>) {
    text.Some? && text.value != ""
  }

  /** The (name, state) pairs of the entries that have a name. */
  function Named(entries: seq<NodeEntry>): (pairs: seq<(string, string)>)
    ensures pairs == [] <==> forall e <- entries :: !Truthy(e.name)
    ensures forall p <- pairs :: p.0 != "" && p.1 != ""
  {
    if entries == [] then []
    else
      var e, rest := entries[0], Named(entries[1..]);
      if Truthy(e.name) then [(e.name.value, if Truthy(e.state) then e.state.value else "Unknown")] + rest else rest
  }

  // ---- What a traversal should produce ---------------------------------------------------

  /** The reason a visited node is reported as failed, if it is. */
  function FailureOf(node: Node): Option<string> {
    if !IsUp(node) then Some("state " + node.state)
    else if node.reply.Failed? then Some(node.reply.message)
    else None
  }

  predicate Answers(node: Node) {
    IsUp(node) && node.reply.Answered?
  }

  /** The traversal passes this node and goes on to the next. */
  predicate Passes(node: Node) {
    !IsUp(node) || node.reply.Failed? || (node.reply.Answered? && forall r <- node.reply.rows :: r.Mappable?)
  }

  function RowsAt(node: Node): seq<VirtualMachine> {
    if Answers(node) then Mapped(node.reply.rows) else []
  }

  function FailureAt(node: Node): seq<FailedNode> {
    match FailureOf(node) case Some(reason) => [FailedNode(node.name, reason)] case None => []
  }

  function ContactAt(node: Node): seq<string> {
    if IsUp(node) then [node.name] else []
  }

  function RowsOf(nodes: seq<Node>): seq<VirtualMachine> {
    if nodes == [] then [] else RowsOf(nodes[..|nodes| - 1]) + RowsAt(nodes[|nodes| - 1])
  }

  function Failures(nodes: seq<Node>): seq<FailedNode> {
    if nodes == [] then [] else Failures(nodes[..|nodes| - 1]) + FailureAt(nodes[|nodes| - 1])
  }

  function Contacts(nodes: seq<Node>): seq<string> {
    if nodes == [] then [] else Contacts(nodes[..|nodes| - 1]) + ContactAt(nodes[|nodes| - 1])
  }

  function CountAnswers(nodes: seq<Node>): nat {
    if nodes == [] then 0 else CountAnswers(nodes[..|nodes| - 1]) + if Answers(nodes[|nodes| - 1]) then 1 else 0
  }

  /** How many nodes are visited: all, or up to and with the first that does not pass. */
  function Visited(nodes: seq<Node>): (n: nat)
    ensures n <= |nodes|
    ensures forall i | 0 <= i < n - 1 :: Passes(nodes[i])
    ensures n == |nodes| || (n > 0 && !Passes(nodes[n - 1]))
  {
    if nodes == [] then 0 else if !Passes(nodes[0]) then 1 else 1 + Visited(nodes[1..])
  }

  function FailureText(failures: seq<FailedNode>): string
    requires failures != []
  {
    var last := failures[|failures| - 1];
    (if |failures| == 1 then "" else FailureText(failures[..|failures| - 1]) + ", ")
    + last.name + " (" + last.reason + ")"
  }

  function Summary(total: nat, failures: seq<FailedNode>): Outcome {
    Outcome(total, failures != [] && total == 0, if failures == [] then None else Some(FailureText(failures)))
  }

  /** The stream of a traversal that visited these nodes. */
  function StreamAfter(seen: seq<Node>): Stream
    requires forall i | 0 <= i < |seen| - 1 :: Passes(seen[i])
  {
    var vms := RowsOf(seen);
    if seen == [] || Passes(seen[|seen| - 1]) then Stream(vms, Exhausted, [Summary(|vms|, Failures(seen))])
    else Stream(vms, Stopped(seen[|seen| - 1].reply), [])
  }

  function Stopped(reply: Reply): StreamEnd
    requires !reply.Failed? && (reply.Answered? ==> exists r <- reply.rows :: r.Unmappable?)
  {
    match reply
    case AuthRefused(message) => AuthLost(message)
    case Broke(message) => Crashed(message)
    case Answered(rows) => Uncaught(rows[|Mapped(rows)|].fault)
  }

  /** Where a mapper exception ends the stream: nothing here catches it, and the service knows a refused login. */
  function Uncaught(fault: Fault): StreamEnd {
    match fault case AuthFault(message) => AuthLost(message) case OtherFault(message) => Crashed(message)
  }

  // ---- The traversal ---------------------------------------------------------------------

  class Traversal {
    var vms: seq<VirtualMachine>
    var failedNodes: seq<FailedNode>
    var contacted: seq<string>
    var sessionsCreated: nat
    var sessionsClosed: nat

    constructor ()
      ensures vms == [] && failedNodes == [] && contacted == [] && sessionsCreated == sessionsClosed == 0
    {
      vms, failedNodes, contacted, sessionsCreated, sessionsClosed := [], [], [], 0, 0;
    }

    /** The loop over the cluster's nodes. */
    method VisitNodes(nodes: seq<Node>) returns (stream: Stream)
      requires vms == [] && failedNodes == [] && contacted == [] && sessionsCreated == sessionsClosed == 0
      modifies this
      ensures stream == StreamAfter(nodes[..Visited(nodes)])
      ensures failedNodes == Failures(nodes[..Visited(nodes)])
      ensures contacted == Contacts(nodes[..Visited(nodes)])
      ensures sessionsCreated == sessionsClosed == |contacted|
    {
      hide RowsAt, FailureAt, ContactAt, Summary, Passes, Stopped;
      for i := 0 to |nodes|
        invariant forall j | 0 <= j < i :: Passes(nodes[j])
        invariant sessionsCreated == sessionsClosed == |contacted|
        invariant contacted == Contacts(nodes[..i])
        invariant vms == RowsOf(nodes[..i])
        invariant failedNodes == Failures(nodes[..i])
      {
        assert nodes[..i + 1][..i] == nodes[..i];
        var end := VisitNode(nodes[i]);
        if end.Some? {
          VisitedIs(nodes, i + 1);
          return Stream(vms, end.value, []);
        }
      }
      assert nodes[..|nodes|] == nodes;
      VisitedIs(nodes, |nodes|);
      return Stream(vms, Exhausted, [Summary(|vms|, failedNodes)]);
    }

    /** One turn of the loop; a value means an exception leaves it. */
    method VisitNode(node: Node) returns (end: Option<StreamEnd>)
      modifies this
      ensures vms == old(vms) + RowsAt(node)
      ensures failedNodes == old(failedNodes) + FailureAt(node)
      ensures contacted == old(contacted) + ContactAt(node)
      ensures sessionsCreated == old(sessionsCreated) + |ContactAt(node)|
      ensures sessionsClosed == old(sessionsClosed) + |ContactAt(node)|
      ensures end.None? <==> Passes(node)
      ensures end.Some? ==> end.value == Stopped(node.reply)
    {
      if Lower(node.state) != "up" {
        failedNodes := failedNodes + [FailedNode(node.name, "state " + node.state)];
        return None;
      }
      sessionsCreated := sessionsCreated + 1;
      contacted := contacted + [node.name];
      sessionsClosed := sessionsClosed + 1;
      match node.reply {
        case AuthRefused(message) =>
          return Some(AuthLost(message));
        case Failed(message) =>
          failedNodes := failedNodes + [FailedNode(node.name, message)];
          return None;
        case Broke(message) =>
          return Some(Crashed(message));
        case Answered(rows) =>
          var read, fault := HandOn(rows);
          vms := vms + read;
          return if fault.None? then None else Some(Uncaught(fault.value));
      }
    }
  }

  /** Maps and yields row after row; a fault is the mapper's exception. */
  method HandOn(rows: seq<RawObject>) returns (vms: seq<VirtualMachine>, fault: Option<Fault>)
    ensures vms == Mapped(rows)
    ensures fault == if |vms| < |rows| then Some(rows[|vms|].fault) else None
    ensures fault.None? <==> forall r <- rows :: r.Mappable?
  {
    vms, fault := [], None;
    while |vms| < |rows| && fault.None?
      invariant |vms| <= |rows| && forall i | 0 <= i < |vms| :: rows[i] == Mappable(vms[i])
      invariant fault.Some? ==> |vms| < |rows| && rows[|vms|] == Unmappable(fault.value)
      decreases if fault.None? then 1 else 0, |rows| - |vms|
    {
      match rows[|vms|] {
        case Mappable(vm) => vms := vms + [vm];
        case Unmappable(f) => fault := Some(f);
      }
    }
    if fault.Some? {
      assert rows[|vms|] in rows;
    }
    MappedPrefix(rows, vms);
  }

  lemma VisitedIs(nodes: seq<Node>, n: nat)
    requires n <= |nodes|
    requires forall i | 0 <= i < n - 1 :: Passes(nodes[i])
    requires (n == |nodes| && (n == 0 || Passes(nodes[n - 1]))) || (n > 0 && !Passes(nodes[n - 1]))
    ensures Visited(nodes) == n
  {
  }

  // ---- Accounting ------------------------------------------------------------------------

  /** Every visited node that the traversal passed either answered or is among the failed ones, once. */
  lemma {:induction false} EveryNodeAccountedFor(nodes: seq<Node>)
    requires forall n <- nodes :: Passes(n)
    ensures CountAnswers(nodes) + |Failures(nodes)| == |nodes|
    ensures forall f <- Failures(nodes) :: exists n <- nodes :: n.name == f.name && FailureOf(n) == Some(f.reason)
    ensures forall n <- nodes | FailureOf(n).Some? :: FailedNode(n.name, FailureOf(n).value) in Failures(nodes)
  {
    if nodes != [] {
      var init, last := nodes[..|nodes| - 1], nodes[|nodes| - 1];
      assert nodes == init + [last] && Passes(last);
      EveryNodeAccountedFor(init);
    }
  }

  // ---- The adapter -----------------------------------------------------------------------

  /** How a reply to one whole-host query, or to the node list query, becomes a stream. */
  function HostStream(reply: Reply): Stream {
    match reply
    case AuthRefused(message) => Stream([], AuthLost(message), [])
    case Failed(message) => Stream([], Exhausted, [Outcome(0, true, Some(message))])
    case Broke(message) => Stream([], Crashed(message), [])
    case Answered(rows) =>
      var vms := Mapped(rows);
      if |vms| < |rows| then Stream(vms, Uncaught(rows[|vms|].fault), [])
      else Stream(vms, Exhausted, [Summary(|vms|, [])])
  }

  function NodesToVisit(entries: seq<NodeEntry>, replies: nat -> Reply): (nodes: seq<Node>)
    ensures |nodes| == |Named(entries)|
  {
    var pairs := Named(entries);
    seq(|pairs|, i requires 0 <= i < |pairs| => Node(pairs[i].0, pairs[i].1, replies(i)))
  }

  function ClusterStream(list: NodeList, replies: nat -> Reply): Stream {
    match list
    case ListAuthRefused(message) => HostStream(AuthRefused(message))
    case ListFailed(message) => HostStream(Failed(message))
    case ListBroke(message) => HostStream(Broke(message))
    case Listed(entries) =>
      var nodes := NodesToVisit(entries, replies);
      if nodes == [] then HostStream(Failed(NO_NODES)) else StreamAfter(nodes[..Visited(nodes)])
  }

  /** The single-host branch: one query over the adapter's own session. */
  method ListHostMachines(reply: Reply) returns (stream: Stream)
    ensures stream == HostStream(reply)
  {
    match reply {
      case AuthRefused(message) =>
        stream := Stream([], AuthLost(message), []);
      case Failed(message) =>
        stream := Stream([], Exhausted, [Outcome(0, true, Some(message))]);
      case Broke(message) =>
        stream := Stream([], Crashed(message), []);
      case Answered(rows) =>
        var vms, fault := HandOn(rows);
        stream := if fault.Some? then Stream(vms, Uncaught(fault.value), [])
                  else Stream(vms, Exhausted, [Summary(|vms|, [])]);
    }
  }

  method ListClusterMachines(list: NodeList, replies: nat -> Reply) returns (stream: Stream, traversal: Traversal)
    ensures stream == ClusterStream(list, replies)
    ensures fresh(traversal) && traversal.sessionsCreated == traversal.sessionsClosed
  {
    traversal := new Traversal();
    match list {
      case ListAuthRefused(message) =>
        stream := Stream([], AuthLost(message), []);
      case ListFailed(message) =>
        stream := Stream([], Exhausted, [Outcome(0, true, Some(message))]);
      case ListBroke(message) =>
        stream := Stream([], Crashed(message), []);
      case Listed(entries) =>
        var nodes := NodesToVisit(entries, replies);
        if nodes == [] {
          stream := Stream([], Exhausted, [Outcome(0, true, Some(NO_NODES))]);
        } else {
          stream := traversal.VisitNodes(nodes);
        }
    }
  }

  /** A finished traversal is reported as failed exactly when some node failed and no machine was read. */
  lemma FailedOnlyWhenNothingRead(nodes: seq<Node>)
    requires nodes != [] && StreamAfter(nodes[..Visited(nodes)]).end.Exhausted?
    ensures var s := StreamAfter(nodes[..Visited(nodes)]);
            && Visited(nodes) == |nodes|
            && |s.outcomes| == 1 && s.outcomes[0].collectedCount == |s.vms|
            && (s.outcomes[0].failed <==> s.vms == [] && exists n <- nodes :: FailureOf(n).Some?)
            && (s.outcomes[0].error.Some? <==> exists n <- nodes :: FailureOf(n).Some?)
  {
    var seen := nodes[..Visited(nodes)];
    assert Passes(seen[|seen| - 1]);
    assert seen == nodes;
    forall n <- nodes ensures Passes(n) {
    }
    EveryNodeAccountedFor(nodes);
  }

  // ---- The traversal, told node by node -------------------------------------------------------

  /** A node is up when the cluster says so, in whatever case. */
  lemma UpTold(node: Node)
    ensures IsUp(node) <==> node.state in {"up", "Up", "uP", "UP"}
  {
    var s := node.state;
    if IsUp(node) {
      assert |s| == 2 && Lower(s)[0] == 'u' && Lower(s)[1] == 'p';
      assert s == [s[0], s[1]];
    }
  }

  /** What one more node adds: its machines if it answered, an entry in the failures if not, a contact if it was up. */
  lemma OneMoreNode(nodes: seq<Node>, node: Node, vms: seq<VirtualMachine>)
    requires node.reply.Answered? ==>
               |vms| <= |node.reply.rows| && (forall i | 0 <= i < |vms| :: node.reply.rows[i] == Mappable(vms[i]))
               && (|vms| < |node.reply.rows| ==> node.reply.rows[|vms|].Unmappable?)
    ensures var up := node.state in {"up", "Up", "uP", "UP"};
            && RowsOf(nodes + [node]) == RowsOf(nodes) + (if up && node.reply.Answered? then vms else [])
            && Contacts(nodes + [node]) == Contacts(nodes) + (if up then [node.name] else [])
            && Failures(nodes + [node]) == Failures(nodes) +
                 (if !up then [FailedNode(node.name, "state " + node.state)]
                  else if node.reply.Failed? then [FailedNode(node.name, node.reply.message)]
                  else [])
            && (Passes(node) <==> !up || node.reply.Failed? || (node.reply.Answered? && |vms| == |node.reply.rows|))
  {
    UpTold(node);
    assert (nodes + [node])[..|nodes|] == nodes;
    if node.reply.Answered? {
      MappedPrefix(node.reply.rows, vms);
      assert |vms| < |node.reply.rows| ==> node.reply.rows[|vms|] in node.reply.rows;
    }
  }

  /** Where the traversal stops: a refused login, an unknown exception or an object that cannot be mapped goes out. */
  lemma StopTold(nodes: seq<Node>, node: Node, rest: seq<Node>)
    requires (forall n <- nodes :: Passes(n)) && !Passes(node)
    ensures var all := nodes + [node] + rest;
            var s := StreamAfter(all[..Visited(all)]);
            && Visited(all) == |nodes| + 1 && s.vms == RowsOf(nodes + [node]) && s.outcomes == []
            && (node.reply.AuthRefused? ==> s.end == AuthLost(node.reply.message))
            && (node.reply.Broke? ==> s.end == Crashed(node.reply.message))
            && (node.reply.Answered? ==> exists i | 0 <= i < |node.reply.rows| :: StopsAt(node.reply.rows, i, s.end))
  {
    hide Passes, RowsOf, Failures, Mapped;
    var all := nodes + [node] + rest;
    forall i | 0 <= i < |nodes| ensures Passes(all[i]) {
      assert all[i] in nodes;
    }
    VisitedIs(all, |nodes| + 1);
    var seen := all[..|nodes| + 1];
    assert seen == nodes + [node] && seen[|seen| - 1] == node;
    Blocked(node);
    StoppedTold(node.reply);
    hide Stopped;
  }

  /** The first row that cannot be mapped, and the end its exception makes. */
  ghost predicate StopsAt(rows: seq<RawObject>, i: nat, end: StreamEnd) {
    && i < |rows| && rows[i].Unmappable? && (forall k | 0 <= k < i :: rows[k].Mappable?)
    && end == match rows[i].fault case AuthFault(m) => AuthLost(m) case OtherFault(m) => Crashed(m)
  }

  lemma Blocked(node: Node)
    requires !Passes(node)
    ensures !node.reply.Failed? && (node.reply.Answered? ==> exists r <- node.reply.rows :: r.Unmappable?)
  {
  }

  lemma StoppedTold(reply: Reply)
    requires !reply.Failed? && (reply.Answered? ==> exists r <- reply.rows :: r.Unmappable?)
    ensures reply.AuthRefused? ==> Stopped(reply) == AuthLost(reply.message)
    ensures reply.Broke? ==> Stopped(reply) == Crashed(reply.message)
    ensures reply.Answered? ==> exists i: nat | i < |reply.rows| :: StopsAt(reply.rows, i, Stopped(reply))
  {
    if reply.Answered? {
      assert StopsAt(reply.rows, |Mapped(reply.rows)|, Stopped(reply));
    }
  }

  /** Before any node: what becomes of the node list query, and of a list without names. */
  lemma ListTold(list: NodeList, replies: nat -> Reply)
    ensures var s := ClusterStream(list, replies);
            && (list.ListAuthRefused? ==> s == Stream([], AuthLost(list.message), []))
            && (list.ListBroke? ==> s == Stream([], Crashed(list.message), []))
            && (list.ListFailed? ==> s == Stream([], Exhausted, [Outcome(0, true, Some(list.message))]))
            && (list.Listed? && (forall e <- list.entries :: e.name == None || e.name == Some("")) ==>
                  s == Stream([], Exhausted, [Outcome(0, true, Some("no cluster nodes"))]))
  {
  }

  /** The nodes are the named entries in their order, each in the state it is listed with, or "Unknown". */
  lemma NamesTold(name: string, state: Option<string>, rest: seq<NodeEntry>)
    ensures var shown := if state == None || state == Some("") then "Unknown" else state.value;
            Named([NodeEntry(Some(name), state)] + rest) == (if name == "" then [] else [(name, shown)]) + Named(rest)
    ensures Named([NodeEntry(None, state)] + rest) == Named(rest)
  {
    assert ([NodeEntry(Some(name), state)] + rest)[1..] == rest;
    assert ([NodeEntry(None, state)] + rest)[1..] == rest;
  }

  /** The failures are told in order, each as its name with the reason behind it. */
  lemma FailuresTold(failures: seq<FailedNode>, name: string, reason: string)
    ensures FailureText([FailedNode(name, reason)]) == name + " (" + reason + ")"
    ensures failures != [] ==>
              FailureText(failures + [FailedNode(name, reason)]) ==
              FailureText(failures) + ", " + name + " (" + reason + ")"
  {
    assert (failures + [FailedNode(name, reason)])[..|failures|] == failures;
    assert "" + name == name;
  }

  /** One host: its rows in order, the outcome that counts them, or the failure in the adapter's words. */
  lemma HostTold(reply: Reply, vms: seq<VirtualMachine>)
    requires reply.Answered? ==> |vms| == |reply.rows| && forall i | 0 <= i < |vms| :: reply.rows[i] == Mappable(vms[i])
    ensures var s := HostStream(reply);
            && (reply.AuthRefused? ==> s == Stream([], AuthLost(reply.message), []))
            && (reply.Failed? ==> s == Stream([], Exhausted, [Outcome(0, true, Some(reply.message))]))
            && (reply.Broke? ==> s == Stream([], Crashed(reply.message), []))
            && (reply.Answered? ==> s == Stream(vms, Exhausted, [Outcome(|vms|, false, None)]))
  {
    if reply.Answered? {
      MappedPrefix(reply.rows, vms);
    }
  }
}

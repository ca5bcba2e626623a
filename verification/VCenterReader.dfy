/**
 The vCenter adapter: the token paging loop of src/infrastructure/vcenter/collector.py:89-107 and the
 stream built on it by src/infrastructure/vcenter/reader.py:67-91.
 */
module VCenterReader {
  import opened Common
  import opened Domain
  import opened Streams

  /** What the property collector answers, call after call; the rest is what it answers to the token. */
  datatype Chain =
    | NoResult
    | Raises(fault: Fault)
    | Page(objects: seq<RawObject>, token: Option<string>, rest: Chain)

  /** Python's truth of a token: absent and empty both end the paging. */
  predicate HasMore(token: Option<string>) {
    token.Some? && token.value != ""
  }

  /** The objects on all pages that the tokens lead to. */
  function Objects(chain: Chain): seq<RawObject> {
    if chain.Page? then chain.objects + (if HasMore(chain.token) then Objects(chain.rest) else []) else []
  }

  /** The exception, if any, that ends the paging. */
  function Failure(chain: Chain): Option<Fault> {
    match chain
    case NoResult => None
    case Raises(f) => Some(f)
    case Page(_, token, rest) => if HasMore(token) then Failure(rest) else None
  }

  /** A server that cuts its objects into pages of at most size objects. */
  function Paged(objects: seq<RawObject>, size: nat, token: string): Chain
    requires size > 0 && token != ""
    decreases |objects|
  {
    if |objects| <= size then Page(objects, None, NoResult)
    else Page(objects[..size], Some(token), Paged(objects[size..], size, token))
  }

  lemma {:induction false} PagedKeepsObjects(objects: seq<RawObject>, size: nat, token: string)
    requires size > 0 && token != ""
    ensures Objects(Paged(objects, size, token)) == objects
    ensures Failure(Paged(objects, size, token)) == None
    decreases |objects|
  {
    if |objects| > size {
      PagedKeepsObjects(objects[size..], size, token);
      assert objects == objects[..size] + objects[size..];
    }
  }

  /** Pages that each carry a token to the next, and what the last token leads to. */
  function Linked(pages: seq<seq<RawObject>>, token: string, end: Chain): Chain {
    if pages == [] then end else Page(pages[0], Some(token), Linked(pages[1..], token, end))
  }

  function Concatenated(pages: seq<seq<RawObject>>): seq<RawObject> {
    if pages == [] then [] else pages[0] + Concatenated(pages[1..])
  }

  /**
   Whatever the pages: their objects come out one page after the other, the exception that ends them gets out, and
   an absent result, or a page without a token or with an empty one, is the end.
   */
  lemma {:induction false} LinkedPages(pages: seq<seq<RawObject>>, token: string, end: Chain)
    requires token != ""
    ensures var chain := Linked(pages, token, end);
            && (end.NoResult? ==> Objects(chain) == Concatenated(pages) && Failure(chain) == None)
            && (end.Raises? ==> Objects(chain) == Concatenated(pages) && Failure(chain) == Some(end.fault))
            && (end.Page? && (end.token == None || end.token == Some("")) ==>
                  Objects(chain) == Concatenated(pages) + end.objects && Failure(chain) == None)
  {
    if pages == [] {
      assert Concatenated(pages) == [];
      if end.Page? {
        assert end.objects + [] == end.objects == [] + end.objects;
      }
    } else {
      LinkedPages(pages[1..], token, end);
      if end.Page? {
        assert pages[0] + (Concatenated(pages[1..]) + end.objects) == Concatenated(pages) + end.objects;
      }
    }
  }

  // ---- The paging generator --------------------------------------------------------------

  datatype Pulled = Yielded(item: RawObject) | Returned | Raised(fault: Fault)

  datatype Position =
    | NotStarted
    | BeforeFetch(chain: Chain)
    | InPage(objects: seq<RawObject>, token: Option<string>, rest: Chain)
    | Finished

  class PageGenerator {
    const viewFault: Option<Fault>
    const server: Chain
    var position: Position
    var viewsCreated: nat
    var viewsReleased: nat

    ghost predicate Valid()
      reads this
    {
      && (position.NotStarted? ==> viewsCreated == 0 && viewsReleased == 0)
      && (position.BeforeFetch? || position.InPage? ==> viewsCreated == 1 && viewsReleased == 0)
      && (position.Finished? ==> viewsCreated == viewsReleased <= 1)
    }

    /** The objects this generator has still to yield. */
    ghost function Remaining(): seq<RawObject>
      reads this
    {
      match position
      case NotStarted => if viewFault.Some? then [] else Objects(server)
      case BeforeFetch(chain) => Objects(chain)
      case InPage(objects, token, rest) => objects + (if HasMore(token) then Objects(rest) else [])
      case Finished => []
    }

    /** The exception it will end with. */
    ghost function Pending(): Option<Fault>
      reads this
    {
      match position
      case NotStarted => if viewFault.Some? then viewFault else Failure(server)
      case BeforeFetch(chain) => Failure(chain)
      case InPage(_, token, rest) => if HasMore(token) then Failure(rest) else None
      case Finished => None
    }

    constructor (viewFault: Option<Fault>, server: Chain)
      ensures Valid() && position.NotStarted? && this.viewFault == viewFault && this.server == server
      ensures Remaining() == (if viewFault.Some? then [] else Objects(server))
      ensures Pending() == (if viewFault.Some? then viewFault else Failure(server))
    {
      this.viewFault, this.server := viewFault, server;
      position, viewsCreated, viewsReleased := NotStarted, 0, 0;
    }

    /** Runs to the next yield, or to the end; leaving by any exit releases the view. */
    method Next() returns (pulled: Pulled)
      requires Valid() && !position.Finished?
      modifies this
      ensures Valid()
      ensures pulled.Yielded? ==> !position.Finished? && !position.NotStarted?
      ensures !pulled.Yielded? ==> position.Finished?
      ensures old(Remaining()) == (if pulled.Yielded? then [pulled.item] + Remaining() else [])
      ensures old(Pending()) == (if pulled.Yielded? then Pending()
                                 else if pulled.Raised? then Some(pulled.fault) else None)
      ensures viewsCreated == if viewFault.Some? && old(position).NotStarted? then 0 else 1
      ensures position.Finished? ==> viewsReleased == viewsCreated
    {
      if position.NotStarted? {
        if viewFault.Some? {
          position := Finished;
          return Raised(viewFault.value);
        }
        viewsCreated := 1;
        position := BeforeFetch(server);
      }
      pulled := Resume();
    }

    method Resume() returns (pulled: Pulled)
      requires Valid() && (position.BeforeFetch? || position.InPage?)
      modifies `position, `viewsReleased
      ensures Valid()
      ensures if pulled.Yielded? then position.InPage? else position.Finished?
      ensures old(Remaining()) == (if pulled.Yielded? then [pulled.item] + Remaining() else [])
      ensures old(Pending()) == (if pulled.Yielded? then Pending()
                                 else if pulled.Raised? then Some(pulled.fault) else None)
    {
      hide Remaining, Pending, Valid;
      while true
        invariant Valid() && (position.BeforeFetch? || position.InPage?)
        invariant Remaining() == old(Remaining()) && Pending() == old(Pending())
        decreases if position.BeforeFetch? then position.chain else position.rest,
                  if position.InPage? then 1 else 0
      {
        var out;
        if position.BeforeFetch? {
          out := Fetch();
        } else {
          out := ReadOn();
        }
        if out.Some? {
          return out.value;
        }
      }
    }

    /** Within a page: the next object, or on to the next call, or the end. */
    method ReadOn() returns (out: Option<Pulled>)
      requires Valid() && position.InPage?
      modifies `position, `viewsReleased
      ensures Valid()
      ensures out.None? ==>
                && position.BeforeFetch? && position.chain == old(position).rest
                && Remaining() == old(Remaining()) && Pending() == old(Pending())
      ensures out.Some? ==>
                && !out.value.Raised? && (if out.value.Yielded? then position.InPage? else position.Finished?)
                && old(Remaining()) == (if out.value.Yielded? then [out.value.item] + Remaining() else [])
                && old(Pending()) == (if out.value.Yielded? then Pending() else None)
    {
      hide Objects, Failure;
      var objects, token, rest := position.objects, position.token, position.rest;
      if objects != [] {
        position := InPage(objects[1..], token, rest);
        return Some(Yielded(objects[0]));
      }
      if !HasMore(token) {
        Release();
        return Some(Returned);
      }
      position := BeforeFetch(rest);
      return None;
    }

    /** One call to the server: a page, or the end. */
    method Fetch() returns (end: Option<Pulled>)
      requires Valid() && position.BeforeFetch?
      modifies `position, `viewsReleased
      ensures Valid()
      ensures end.None? ==>
                && position.InPage? && old(position).chain.Page? && position.rest == old(position).chain.rest
                && Remaining() == old(Remaining()) && Pending() == old(Pending())
      ensures end.Some? ==>
                && position.Finished? && !end.value.Yielded? && old(Remaining()) == []
                && old(Pending()) == if end.value.Raised? then Some(end.value.fault) else None
    {
      match position.chain {
        case NoResult =>
          Release();
          return Some(Returned);
        case Raises(fault) =>
          Release();
          return Some(Raised(fault));
        case Page(objects, token, rest) =>
          position := InPage(objects, token, rest);
          return None;
      }
    }

    /** Whoever drops the generator before its end leaves this to Python's finalizer. */
    method Close()
      requires Valid()
      modifies this
      ensures Valid() && position.Finished? && viewsReleased == viewsCreated == old(viewsCreated)
    {
      if position.BeforeFetch? || position.InPage? {
        Release();
      }
      position := Finished;
    }

    method Release()
      requires Valid() && (position.BeforeFetch? || position.InPage?)
      modifies `position, `viewsReleased
      ensures Valid() && position.Finished? && viewsCreated == 1
    {
      viewsReleased := viewsReleased + 1;
      position := Finished;
    }
  }

  // ---- The stream of machines ------------------------------------------------------------

  /** How the reader's stream ends when a fault reaches it after count objects. */
  function OnFault(vms: seq<VirtualMachine>, count: nat, fault: Fault): Stream {
    match fault
    case AuthFault(message) => Stream(vms, AuthLost(message), [])
    case OtherFault(message) => Stream(vms, Exhausted, [Outcome(count, true, Some(message))])
  }

  /** The whole stream, from the objects on all pages. */
  function StreamOf(objects: seq<RawObject>, failure: Option<Fault>): Stream {
    var vms := Mapped(objects);
    if |vms| < |objects| then OnFault(vms, |vms| + 1, objects[|vms|].fault)
    else
      match failure
      case Some(fault) => OnFault(vms, |objects|, fault)
      case None => Stream(vms, Exhausted, [Outcome(|objects|, false, None)])
  }

  /** The view is released by the end of the stream, unless the mapper cuts it short: then it is released by Close. */
  method ListVirtualMachines(viewFault: Option<Fault>, server: Chain)
    returns (stream: Stream, pages: PageGenerator)
    ensures stream == StreamOf(if viewFault.Some? then [] else Objects(server),
                               if viewFault.Some? then viewFault else Failure(server))
    ensures fresh(pages) && pages.Valid() && pages.viewsCreated == if viewFault.Some? then 0 else 1
    ensures pages.position.Finished? <==> viewFault.Some? || forall o <- Objects(server) :: o.Mappable?
    ensures pages.viewsReleased == if pages.position.Finished? then pages.viewsCreated else 0
  {
    hide Objects, Failure, HandedOn, StreamOf, OnFault;
    hide PageGenerator.Remaining, PageGenerator.Pending, PageGenerator.Valid;
    pages := new PageGenerator(viewFault, server);
    ghost var all, failure := pages.Remaining(), pages.Pending();
    var vms: seq<VirtualMachine>, count := [], 0;
    NothingHandedOn(all);
    while true
      invariant pages.Valid() && fresh(pages) && !pages.position.Finished?
      invariant pages.viewFault == viewFault
      invariant count == |vms| <= |all| && all[count..] == pages.Remaining() && failure == pages.Pending()
      invariant HandedOn(all, vms)
      invariant if pages.position.NotStarted? then count == 0 else viewFault.None?
      decreases |pages.Remaining()|
    {
      var pulled := pages.Next();
      match pulled {
        case Yielded(item) =>
          count := count + 1;
          assert all[count - 1] == item;
          match item {
            case Mappable(vm) =>
              OneMoreHandedOn(all, vms, vm);
              vms := vms + [vm];
            case Unmappable(fault) =>
              StreamCutShort(all, vms, failure, fault);
              return OnFault(vms, count, fault), pages;
          }
        case Raised(fault) =>
          StreamEnds(all, vms, failure);
          return OnFault(vms, count, fault), pages;
        case Returned =>
          StreamEnds(all, vms, failure);
          return Stream(vms, Exhausted, [Outcome(count, false, None)]), pages;
      }
    }
  }

  /** The machines so far are those of the first objects. */
  ghost predicate HandedOn(objects: seq<RawObject>, vms: seq<VirtualMachine>) {
    |vms| <= |objects| && forall i | 0 <= i < |vms| :: objects[i] == Mappable(vms[i])
  }

  lemma NothingHandedOn(objects: seq<RawObject>)
    ensures HandedOn(objects, [])
  {
  }

  lemma OneMoreHandedOn(objects: seq<RawObject>, vms: seq<VirtualMachine>, vm: VirtualMachine)
    requires HandedOn(objects, vms) && |vms| < |objects| && objects[|vms|] == Mappable(vm)
    ensures HandedOn(objects, vms + [vm])
  {
  }

  lemma StreamEnds(objects: seq<RawObject>, vms: seq<VirtualMachine>, failure: Option<Fault>)
    requires HandedOn(objects, vms) && |vms| == |objects|
    ensures StreamOf(objects, failure) ==
            match failure
            case Some(fault) => OnFault(vms, |vms|, fault)
            case None => Stream(vms, Exhausted, [Outcome(|vms|, false, None)])
    ensures forall o <- objects :: o.Mappable?
  {
    MappedPrefix(objects, vms);
  }

  lemma StreamCutShort(objects: seq<RawObject>, vms: seq<VirtualMachine>, failure: Option<Fault>, fault: Fault)
    requires HandedOn(objects, vms) && |vms| < |objects| && objects[|vms|] == Unmappable(fault)
    ensures StreamOf(objects, failure) == OnFault(vms, |vms| + 1, fault)
    ensures exists o <- objects :: !o.Mappable?
  {
    MappedPrefix(objects, vms);
    assert objects[|vms|] in objects;
  }

  /**
   How the stream ends: after a full listing with one outcome that counts it; after an exception of the server with a
   lost login and no outcome, or with one failed outcome in its words; after an object that cannot be mapped likewise.
   */
  lemma StreamTold(objects: seq<RawObject>, vms: seq<VirtualMachine>, failure: Option<Fault>)
    requires |vms| <= |objects| && forall i | 0 <= i < |vms| :: objects[i] == Mappable(vms[i])
    requires |vms| < |objects| ==> objects[|vms|].Unmappable?
    ensures var s, cut := StreamOf(objects, failure), |vms| < |objects|;
            var fault := if cut then Some(objects[|vms|].fault) else failure;
            && s.vms == vms
            && (fault == None ==> s.end == Exhausted && s.outcomes == [Outcome(|vms|, false, None)])
            && (fault.Some? && fault.value.AuthFault? ==> s.end == AuthLost(fault.value.message) && s.outcomes == [])
            && (fault.Some? && fault.value.OtherFault? ==>
                  s.end == Exhausted
                  && s.outcomes == [Outcome(if cut then |vms| + 1 else |vms|, true, Some(fault.value.message))])
  {
    MappedPrefix(objects, vms);
  }

  /** Two objects, the second unmappable: one machine is handed on, and two are reported. */
  lemma CountOneTooMany(vm: VirtualMachine, message: string)
    ensures var s := StreamOf([Mappable(vm), Unmappable(OtherFault(message))], None);
            s.vms == [vm] && s.outcomes == [Outcome(2, true, Some(message))]
  {
    var objects := [Mappable(vm), Unmappable(OtherFault(message))];
    MappedPrefix(objects, [vm]);
  }

  /**
   The reported count is the number of machines handed on, except that an object the mapper rejects has
   been counted already: then it is one more.
   */
  lemma ReportedCount(objects: seq<RawObject>, failure: Option<Fault>)
    requires StreamOf(objects, failure).end.Exhausted?
    ensures var s := StreamOf(objects, failure);
            && |s.outcomes| == 1
            && (s.outcomes[0].collectedCount == |s.vms| <==> forall o <- objects :: o.Mappable?)
            && s.outcomes[0].collectedCount <= |s.vms| + 1
            && (s.outcomes[0].failed <==> failure.Some? || exists o <- objects :: o.Unmappable?)
  {
    var vms := Mapped(objects);
    if |vms| < |objects| {
      assert objects[|vms|] in objects;
    }
  }
}

/** Who owns which link or descriptor, over any calls to the loader (internal/loader). */
module Loader {
  import opened Wrappers

  datatype Status = Loaded | Attached | Detached | Error

  datatype LoadError = NotFound | AlreadyDetached | NotSupported | ProgNotFound | KernelError

  /** No element occurs twice. */
  ghost predicate Unique(ids: seq<nat>)
  {
    forall i, j :: 0 <= i < j < |ids| ==> ids[i] != ids[j]
  }

  lemma UniqueConcat(a: seq<nat>, b: seq<nat>)
    requires Unique(a) && Unique(b) && forall id :: id in a ==> id !in b
    ensures Unique(a + b)
  {
    forall i, j | 0 <= i < j < |a + b|
      ensures (a + b)[i] != (a + b)[j]
    {
      if i < |a| <= j {
        assert a[i] in a && b[j - |a|] in b;
      }
    }
  }

  /** What a handle holds stays free of repetitions when it takes over new resources. */
  lemma TakenOver(links: seq<nat>, closers: seq<nat>, moreLinks: seq<nat>, moreClosers: seq<nat>)
    requires Unique(links) && Unique(closers) && Unique(moreLinks + moreClosers)
    requires forall id :: id in moreLinks + moreClosers ==> id !in links && id !in closers
    ensures Unique(links + moreLinks) && Unique(closers + moreClosers)
    ensures forall id :: id in moreLinks ==> id !in moreClosers
  {
    var more := moreLinks + moreClosers;
    assert more[..|moreLinks|] == moreLinks && more[|moreLinks|..] == moreClosers;
    UniqueConcat(links, moreLinks);
    UniqueConcat(closers, moreClosers);
    forall i, j | 0 <= i < |moreLinks| && 0 <= j < |moreClosers|
      ensures moreLinks[i] != moreClosers[j]
    {
      assert more[i] == moreLinks[i] && more[|moreLinks| + j] == moreClosers[j];
    }
  }

  /** Links and descriptors are numbered as they are opened; closes counts the close calls of each. */
  class Kernel {
    ghost var closes: seq<nat>
    var next: nat

    ghost predicate Valid()
      reads this
    {
      next == |closes|
    }

    constructor ()
      ensures Valid() && closes == []
    {
      closes, next := [], 0;
    }

    method Open() returns (id: nat)
      requires Valid()
      modifies this
      ensures Valid() && id == |old(closes)| && closes == old(closes) + [0]
    {
      id := next;
      next := next + 1;
      closes := closes + [0];
    }

    method Close(id: nat)
      requires Valid() && id < |closes|
      modifies this
      ensures Valid() && closes == old(closes)[id := old(closes)[id] + 1]
    {
      closes := closes[id := closes[id] + 1];
    }

    /** Every resource of the list is closed once more; the first error is kept and stops nothing. */
    method CloseAll(ids: seq<nat>, failing: set<nat>) returns (firstErr: bool)
      requires Valid() && Unique(ids) && forall id :: id in ids ==> id < |closes|
      modifies this
      ensures Valid() && |closes| == |old(closes)|
      ensures forall id :: 0 <= id < |closes| ==> closes[id] == old(closes)[id] + (if id in ids then 1 else 0)
      ensures firstErr <==> exists id :: id in ids && id in failing
    {
      firstErr := false;
      for i := 0 to |ids|
        invariant Valid() && |closes| == |old(closes)|
        invariant forall id :: 0 <= id < |closes| ==> closes[id] == old(closes)[id] + (if id in ids[..i] then 1 else 0)
        invariant firstErr <==> exists id :: id in ids[..i] && id in failing
      {
        assert ids[i] in ids && ids[..i + 1] == ids[..i] + [ids[i]];
        assert ids[i] !in ids[..i];
        Close(ids[i]);
        if ids[i] in failing && !firstErr {
          firstErr := true;
        }
      }
      assert ids[..|ids|] == ids;
    }
  }

  class Handle {
    const id: nat
    var links: seq<nat>
    var closers: seq<nat>
    var status: Status
    var hasCollection: bool

    constructor (id: nat)
      ensures this.id == id && links == [] && closers == [] && status == Loaded && hasCollection
    {
      this.id := id;
      links, closers, status, hasCollection := [], [], Loaded, true;
    }

    predicate Owns(r: nat)
      reads this
    {
      r in links || r in closers
    }

    /** Nothing is held twice, and only an attached or failed handle holds anything. */
    ghost predicate Valid()
      reads this
    {
      && Unique(links) && Unique(closers)
      && (forall r :: r in links ==> r !in closers)
      && (status.Loaded? || status.Detached? ==> links == [] && closers == [])
      && (!hasCollection ==> status.Detached?)
    }

    method Append(links: seq<nat>, closers: seq<nat>)
      requires Valid() && hasCollection && Unique(links + closers)
      requires forall r :: r in links + closers ==> !Owns(r)
      modifies this
      ensures Valid() && hasCollection && status == Attached
      ensures this.links == old(this.links) + links && this.closers == old(this.closers) + closers
      ensures forall r :: Owns(r) <==> old(Owns(r)) || r in links + closers
    {
      TakenOver(this.links, this.closers, links, closers);
      this.links, this.closers, status := this.links + links, this.closers + closers, Attached;
    }
  }

  /** How far the setup of one CPU's perf event gets. */
  datatype PerfStep = OpenFails | SetBpfFails | EnableFails | AllOk

  class Manager {
    const kernel: Kernel
    var handles: map<nat, Handle>
    var nextId: nat
    /** Every handle ever loaded, and the present owner of every resource that has one. */
    ghost var all: set<Handle>
    ghost var owner: map<nat, Handle>

    /**
     Every resource ever opened is owned by one handle, or still pending, and not closed, or it is
     neither and was closed exactly once.
     */
    ghost predicate Books(pending: seq<nat>)
      reads this, kernel
    {
      && kernel.Valid() && Unique(pending)
      && (forall r :: r in pending ==> r !in owner)
      && (forall r :: r in owner || r in pending ==> r < |kernel.closes|)
      && (forall r :: r in owner ==> owner[r] in all)
      && (forall r :: 0 <= r < |kernel.closes| ==>
            kernel.closes[r] == if r in owner || r in pending then 0 else 1)
    }

    /** A handle holds, once each, exactly the resources it owns. */
    ghost predicate Holds(h: Handle)
      reads this, h
    {
      h.Valid() && forall r :: h.Owns(r) <==> r in owner && owner[r] == h
    }

    /** A handle with a collection is registered under its own identifier. */
    ghost predicate Registry()
      reads this, all
    {
      && (forall id :: id in handles ==> handles[id] in all && handles[id].id == id && id < nextId)
      && (forall h :: h in all && h.hasCollection ==> h.id in handles && handles[h.id] == h)
    }

    ghost predicate ValidWith(pending: seq<nat>)
      reads this, kernel, all
    {
      Books(pending) && Registry() && forall h :: h in all ==> Holds(h)
    }

    ghost predicate Valid()
      reads this, kernel, all
    {
      ValidWith([])
    }

    constructor ()
      ensures Valid() && all == {} && handles == map[] && fresh(kernel)
    {
      kernel := new Kernel();
      handles, nextId, all, owner := map[], 1, {}, map[];
    }

    /** Load fails without a trace, or registers a new handle. */
    method Load(ok: bool) returns (h: Option<Handle>)
      requires Valid()
      modifies this
      ensures Valid()
      ensures !ok ==> h.None? && all == old(all) && handles == old(handles)
      ensures ok ==> h.Some? && fresh(h.value) && all == old(all) + {h.value}
      ensures ok ==> handles == old(handles)[h.value.id := h.value]
      ensures ok ==> h.value.id !in old(handles) && h.value.status == Loaded && h.value.hasCollection && h.value.Valid()
      ensures owner == old(owner)
    {
      if !ok {
        return None;
      }
      var id := nextId;
      nextId := nextId + 1;
      var handle := new Handle(id);
      handles := handles[id := handle];
      all := all + {handle};
      return Some(handle);
    }

    /** Pending resources are entered as the handle's. */
    ghost method Grant(h: Handle, more: seq<nat>)
      requires ValidWith(more) && h in all
      modifies this`owner
      ensures Books([]) && Registry() && forall g :: g in all && g != h ==> Holds(g)
      ensures forall r :: r in owner && owner[r] == h <==> h.Owns(r) || r in more
    {
      owner := map r | r in owner.Keys + (set x | x in more) :: if r in owner then owner[r] else h;
      forall g | g in all && g != h
        ensures Holds(g)
      {
        assert old(Holds(g));
      }
    }

    /** What every successful attach ends with: the handle takes over what was opened. */
    method TakeOver(h: Handle, links: seq<nat>, closers: seq<nat>)
      requires ValidWith(links + closers) && h in all && h.hasCollection
      modifies this`owner, h
      ensures Valid() && h.hasCollection && h.status == Attached
      ensures h.links == old(h.links) + links && h.closers == old(h.closers) + closers
    {
      assert forall r :: r in links + closers ==> !h.Owns(r);
      Grant(h, links + closers);
      label granted:
      h.Append(links, closers);
      forall g | g in all && g != h
        ensures Holds(g)
      {
        assert old@granted(Holds(g));
      }
    }

    /**
     The common body of AttachKprobe, AttachKretprobe, AttachTracepoint, AttachRawTracepoint,
     AttachXDP, attachTCX and AttachBTFTracepoint: opening one link. A failure marks the handle
     and leaves its links alone.
     */
    method AttachLink(h: Handle, progFound: bool, attachOk: bool) returns (err: Option<LoadError>)
      requires Valid() && h in all && h.hasCollection
      modifies this, kernel, h
      ensures Valid() && all == old(all) && handles == old(handles) && h.hasCollection
      ensures h.closers == old(h.closers)
      ensures err.None? <==> progFound && attachOk
      ensures !progFound ==> err == Some(ProgNotFound) && h.status == old(h.status) && h.links == old(h.links)
      ensures progFound && !attachOk ==> err == Some(KernelError) && h.status == Error && h.links == old(h.links)
      ensures err.None? ==> h.status == Attached && h.links == old(h.links) + [|old(kernel.closes)|]
    {
      if !progFound {
        return Some(ProgNotFound);
      }
      if !attachOk {
        h.status := Error;
        return Some(KernelError);
      }
      var link := kernel.Open();
      TakeOver(h, [link], []);
      return None;
    }

    /** Trampolines may be missing altogether. */
    method AttachFentry(h: Handle, trampoline: bool, progFound: bool, attachOk: bool) returns (err: Option<LoadError>)
      requires Valid() && h in all && h.hasCollection
      modifies this, kernel, h
      ensures Valid() && all == old(all) && handles == old(handles) && h.hasCollection
      ensures err.None? <==> trampoline && progFound && attachOk
      ensures !trampoline ==> err == Some(NotSupported) && unchanged(h)
      ensures trampoline && !progFound ==> err == Some(ProgNotFound) && h.status == old(h.status)
      ensures trampoline && progFound && !attachOk ==> h.status == Error
      ensures err.Some? ==> h.links == old(h.links)
      ensures err.None? ==> h.status == Attached && h.links == old(h.links) + [|old(kernel.closes)|]
    {
      if !trampoline {
        return Some(NotSupported);
      }
      err := AttachLink(h, progFound, attachOk);
    }

    /**
     Ingress then egress inside a namespace. When egress fails after ingress succeeded, the ingress
     link stays with the handle.
     */
    method AttachTCXInNs(h: Handle, entered: bool, resolved: bool,
                         ingressFound: bool, ingressOk: bool, egressFound: bool, egressOk: bool)
      returns (err: Option<LoadError>)
      requires Valid() && h in all && h.hasCollection
      modifies this, kernel, h
      ensures Valid() && all == old(all) && handles == old(handles) && h.hasCollection
      ensures err.None? <==> entered && resolved && ingressFound && ingressOk && egressFound && egressOk
      ensures err.None? ==> h.status == Attached
      ensures entered && resolved && ingressFound && (!ingressOk || (egressFound && !egressOk)) ==> h.status == Error
      ensures h.closers == old(h.closers) && old(h.links) <= h.links
      ensures |h.links| - |old(h.links)| ==
        if !(entered && resolved && ingressFound && ingressOk) then 0 else if err.Some? then 1 else 2
    {
      if !entered || !resolved {
        return Some(KernelError);
      }
      err := AttachLink(h, ingressFound, ingressOk);
      if err.Some? {
        return;
      }
      err := AttachLink(h, egressFound, egressOk);
    }

    /** closeAll: everything in fds is closed once and belongs to nobody. */
    method CloseAll(fds: seq<nat>)
      requires ValidWith(fds)
      modifies kernel
      ensures Valid()
    {
      var _ := kernel.CloseAll(fds, {});
    }

    /** Setting up one more CPU's event; a failure at any point gives up everything opened so far. */
    method OpenCpu(fds: seq<nat>, step: PerfStep) returns (ok: bool, fds': seq<nat>)
      requires ValidWith(fds)
      modifies kernel
      ensures ok <==> step.AllOk?
      ensures ok ==> ValidWith(fds') && |fds'| == |fds| + 1
      ensures !ok ==> Valid()
    {
      if step.OpenFails? {
        CloseAll(fds);
        return false, [];
      }
      var fd := kernel.Open();
      UniqueConcat(fds, [fd]);
      fds' := fds + [fd];
      if step.SetBpfFails? {
        CloseAll(fds');
        return false, [];
      }
      if step.EnableFails? {
        CloseAll(fds');
        return false, [];
      }
      return true, fds';
    }

    /**
     AttachPerfEventAllCPUs: steps says how far each CPU gets. If any CPU fails, everything that
     was opened is closed again and the handle is left as it was.
     */
    method AttachPerf(h: Handle, progFound: bool, steps: seq<PerfStep>) returns (err: Option<LoadError>)
      requires Valid() && h in all && h.hasCollection
      modifies this, kernel, h
      ensures Valid() && all == old(all) && handles == old(handles) && h.hasCollection
      ensures err.None? <==> progFound && forall cpu :: 0 <= cpu < |steps| ==> steps[cpu].AllOk?
      ensures !progFound ==> err == Some(ProgNotFound)
      ensures h.links == old(h.links)
      ensures err.Some? ==> h.status == old(h.status) && h.closers == old(h.closers) && owner == old(owner)
      ensures err.None? ==> h.status == Attached && old(h.closers) <= h.closers
      ensures err.None? ==> |h.closers| == |old(h.closers)| + |steps|
    {
      if !progFound {
        return Some(ProgNotFound);
      }
      var fds: seq<nat> := [];
      var cpu := 0;
      while cpu < |steps|
        invariant cpu <= |steps| && |fds| == cpu
        invariant ValidWith(fds) && unchanged(this) && unchanged(h)
        invariant forall c :: 0 <= c < cpu ==> steps[c].AllOk?
      {
        var ok;
        ok, fds := OpenCpu(fds, steps[cpu]);
        if !ok {
          return Some(KernelError);
        }
        cpu := cpu + 1;
      }
      TakeOver(h, [], fds);
      return None;
    }

    /** All is in order but for one handle, whose resources are pending. */
    ghost predicate ValidBut(h: Handle, pending: seq<nat>)
      reads this, kernel, all
    {
      && Books(pending) && Registry() && h in all
      && (forall g :: g in all && g != h ==> Holds(g))
      && (forall r :: r in owner ==> owner[r] != h)
    }

    ghost method Disown(h: Handle)
      requires Valid() && h in all
      modifies this`owner
      ensures ValidBut(h, h.links + h.closers)
      ensures forall r :: r in owner <==> r in old(owner) && !h.Owns(r)
    {
      assert forall r :: r in h.links + h.closers <==> h.Owns(r);
      UniqueConcat(h.links, h.closers);
      owner := map r | r in owner && owner[r] != h :: owner[r];
      forall g | g in all && g != h
        ensures Holds(g)
      {
        assert old(Holds(g));
      }
    }

    /** The loops of Detach and Handle.Close: links first, then closers; an error stops nothing. */
    method CloseOwned(h: Handle, failing: set<nat>) returns (firstErr: bool)
      requires ValidBut(h, h.links + h.closers) && h.Valid()
      modifies kernel
      ensures ValidBut(h, []) && |kernel.closes| == |old(kernel.closes)|
      ensures h.links == h.closers == [] ==> kernel.closes == old(kernel.closes)
      ensures firstErr <==> exists r :: h.Owns(r) && r in failing
    {
      assert forall r :: r in h.links + h.closers <==> h.Owns(r);
      assert forall r :: r in h.links || r in h.closers <==> h.Owns(r);
      var linkErr := kernel.CloseAll(h.links, failing);
      var closerErr := kernel.CloseAll(h.closers, failing);
      firstErr := linkErr || closerErr;
    }

    /** The lists are emptied; closing a handle, unlike detaching it, lets the collection go as well. */
    method Clear(h: Handle, keepCollection: bool)
      requires ValidBut(h, [])
      modifies h
      ensures Valid() && h.status == Detached && h.hasCollection == (old(h.hasCollection) && keepCollection)
      ensures h.links == h.closers == []
    {
      h.links, h.closers, h.status := [], [], Detached;
      h.hasCollection := h.hasCollection && keepCollection;
      forall g | g in all && g != h
        ensures Holds(g)
      {
        assert old(Holds(g));
      }
    }

    /** Detach: the links and closers go, the collection stays. */
    method Detach(id: nat, failing: set<nat>) returns (err: Option<LoadError>)
      requires Valid()
      modifies this`owner, kernel, if id in handles then {handles[id]} else {}
      ensures Valid()
      ensures id !in handles ==> err == Some(NotFound)
      ensures id in handles && old(handles[id].status) == Detached ==> err == Some(AlreadyDetached)
      ensures id !in handles || old(handles[id].status) == Detached ==> kernel.closes == old(kernel.closes)
      ensures id in handles ==> handles[id].status == Detached
      ensures id in handles ==> handles[id].hasCollection == old(handles[id].hasCollection)
      ensures id in handles && old(handles[id].status) != Detached ==>
        (err.Some? <==> exists r :: old(handles[id].Owns(r)) && r in failing)
    {
      if id !in handles {
        return Some(NotFound);
      }
      var h := handles[id];
      if h.status == Detached {
        return Some(AlreadyDetached);
      }
      Disown(h);
      var failed := CloseOwned(h, failing);
      Clear(h, true);
      return if failed then Some(KernelError) else None;
    }

    /** Handle.Close: as Detach, and the collection goes too. Closing twice does nothing more. */
    method CloseHandle(h: Handle, failing: set<nat>) returns (failed: bool)
      requires Valid() && h in all
      modifies this`owner, kernel, h
      ensures Valid() && h.status == Detached && !h.hasCollection && |kernel.closes| == |old(kernel.closes)|
      ensures failed <==> exists r :: old(h.Owns(r)) && r in failing
      ensures forall r :: r in owner <==> r in old(owner) && !old(h.Owns(r))
      ensures forall r :: old(h.Owns(r)) ==> r in old(owner)
      ensures old(h.status) == Detached ==> kernel.closes == old(kernel.closes)
    {
      Disown(h);
      failed := CloseOwned(h, failing);
      Clear(h, false);
    }

    /** One round of Manager.Close: the handle is closed and leaves the registry. */
    method CloseRegistered(id: nat, failing: set<nat>) returns (failed: bool)
      requires Valid() && id in handles
      modifies this`owner, this`handles, kernel, handles[id]
      ensures Valid() && handles == old(handles) - {id} && |kernel.closes| == |old(kernel.closes)|
      ensures owner.Keys <= old(owner).Keys
      ensures failed <==> exists r :: r in old(owner) && r !in owner && r in failing
    {
      failed := CloseHandle(handles[id], failing);
      handles := handles - {id};
    }

    /**
     Manager.Close: every registered handle is closed, in some order, and the registry is empty.
     After it every link and descriptor ever opened has been closed exactly once.
     */
    method Close(failing: set<nat>) returns (firstErr: bool)
      requires Valid()
      modifies this`handles, this`owner, kernel, handles.Values
      ensures Valid() && handles == map[] && owner == map[]
      ensures |kernel.closes| == |old(kernel.closes)|
      ensures forall r :: 0 <= r < |kernel.closes| ==> kernel.closes[r] == 1
      ensures forall h :: h in all ==> h.status == Detached && !h.hasCollection
      ensures firstErr <==> exists r :: r in old(owner) && r in failing
    {
      firstErr := false;
      var ids := handles.Keys;
      while ids != {}
        invariant Valid() && ids == handles.Keys
        invariant |kernel.closes| == |old(kernel.closes)|
        invariant forall id :: id in handles ==> id in old(handles) && handles[id] == old(handles)[id]
        invariant owner.Keys <= old(owner).Keys
        invariant firstErr <==> exists r :: r in old(owner) && r !in owner && r in failing
        decreases |ids|
      {
        var id :| id in ids;
        var failed := CloseRegistered(id, failing);
        if failed && !firstErr {
          firstErr := true;
        }
        ids := ids - {id};
      }
    }
  }

  /** An attach call. */
  datatype HandleCall =
    | Link(progFound: bool, attachOk: bool)
    | Fentry(trampoline: bool, progFound: bool, attachOk: bool)
    | TcxInNs(entered: bool, resolved: bool, ingressFound: bool, ingressOk: bool, egressFound: bool, egressOk: bool)
    | Perf(progFound: bool, steps: seq<PerfStep>)

  /** CallClose is Handle.Close, which may be called again on a handle that is closed. */
  datatype Call =
    | CallLoad(ok: bool)
    | CallDetach(id: nat, failing: set<nat>)
    | CallClose(id: nat, failing: set<nat>)
    | CallAttach(id: nat, call: HandleCall)

  method PerformOn(m: Manager, h: Handle, call: HandleCall)
    requires m.Valid() && h in m.all && h.hasCollection
    modifies m, m.kernel, h
    ensures m.Valid() && m.all == old(m.all)
  {
    match call
    case Link(found, ok) => var _ := m.AttachLink(h, found, ok);
    case Fentry(trampoline, found, ok) => var _ := m.AttachFentry(h, trampoline, found, ok);
    case TcxInNs(entered, resolved, inFound, inOk, outFound, outOk) =>
      var _ := m.AttachTCXInNs(h, entered, resolved, inFound, inOk, outFound, outOk);
    case Perf(found, steps) => var _ := m.AttachPerf(h, found, steps);
  }

  /** Nobody attaches to a closed handle or uses one that was never returned; such a call is left out. */
  method Perform(m: Manager, call: Call)
    requires m.Valid()
    modifies m, m.kernel, m.all
    ensures m.Valid() && fresh(m.all - old(m.all))
  {
    match call
    case CallLoad(ok) => var _ := m.Load(ok);
    case CallDetach(id, failing) => var _ := m.Detach(id, failing);
    case CallClose(id, failing) =>
      if id in m.handles {
        var _ := m.CloseHandle(m.handles[id], failing);
      }
    case CallAttach(id, on) =>
      if id in m.handles && m.handles[id].hasCollection {
        PerformOn(m, m.handles[id], on);
      }
  }

  /**
   Whatever calls are made between NewManager and Manager.Close, and whichever of them fail, in
   the end every link and descriptor that was opened has been closed, and no more than once.
   */
  method Lifetime(calls: seq<Call>, failing: set<nat>) returns (m: Manager)
    ensures m.Valid() && m.handles == map[]
    ensures forall r :: 0 <= r < |m.kernel.closes| ==> m.kernel.closes[r] == 1
  {
    m := new Manager();
    for i := 0 to |calls|
      invariant fresh(m) && fresh(m.kernel) && fresh(m.all) && m.Valid()
    {
      Perform(m, calls[i]);
    }
    var _ := m.Close(failing);
  }
}

/** The resident-buffer pool of daemon/vulkan/vulkan_compute.c and its users in VulkanBackend
    (daemon/worker.cpp): plugin buffers, per-instance state buffers and shared-memory imports all
    draw handles from one table of 256 slots, slot 0 being reserved for failure.
    Whether the device calls of an operation succeed is a parameter of the operation. */
module HandlePool {
  import opened Bits

  const SLOTS: nat := 256

  datatype Pool = Pool(active: seq<bool>, size: seq<nat>)

  predicate ValidPool(p: Pool) {
    |p.active| == SLOTS && |p.size| == SLOTS && !p.active[0]
  }

  /** The scan loop: the first inactive slot from `i` on, or 0. */
  function FirstFree(active: seq<bool>, i: nat): (h: nat)
    requires 0 < i <= |active|
    ensures h == 0 <==> forall j | i <= j < |active| :: active[j]
    ensures h != 0 ==> i <= h < |active| && !active[h] && forall j | i <= j < h :: active[j]
    decreases |active| - i
  {
    if i == |active| then 0 else if !active[i] then i else FirstFree(active, i + 1)
  }

  /** Both `allocate_buffer` and `import_shm`: claim the first free slot if the device calls succeed. */
  function Claim(p: Pool, size: nat, deviceOk: bool): (r: (Pool, nat))
    requires ValidPool(p)
    ensures ValidPool(r.0) && r.1 < SLOTS
    ensures r.1 != 0 ==> !p.active[r.1] && r.0.active == p.active[r.1 := true] && r.0.size == p.size[r.1 := size]
    ensures r.1 != 0 ==> forall j | 1 <= j < r.1 :: p.active[j]
    ensures r.1 == 0 <==> !deviceOk || forall j | 1 <= j < SLOTS :: p.active[j]
    ensures r.1 == 0 ==> r.0 == p
  {
    var h := FirstFree(p.active, 1);
    if h == 0 || !deviceOk then (p, 0) else (Pool(p.active[h := true], p.size[h := size]), h)
  }

  function Release(p: Pool, h: nat): (r: Pool)
    requires ValidPool(p)
    ensures ValidPool(r) && r.size == p.size
    ensures forall j | 0 <= j < SLOTS :: r.active[j] <==> p.active[j] && j != h
  {
    if h == 0 || h >= SLOTS || !p.active[h] then p else p.(active := p.active[h := false])
  }

  predicate Usable(p: Pool, h: nat)
    requires ValidPool(p)
  {
    h != 0 && h < SLOTS && p.active[h]
  }

  /** A successful device claims a handle exactly when fewer than 255 are live, and then one more is. */
  lemma ClaimCounts(p: Pool, size: nat)
    requires ValidPool(p)
    ensures var (p', h) := Claim(p, size, true);
      && (h != 0 <==> Count(p.active) < SLOTS - 1)
      && Count(p'.active) == if h != 0 then Count(p.active) + 1 else Count(p.active)
  {
    CountFull(p.active[1..]);
    assert Count(p.active) == Count(p.active[1..]);
    assert forall j | 1 <= j < SLOTS :: p.active[j] == p.active[1..][j - 1];
    var h := FirstFree(p.active, 1);
    if h != 0 {
      assert !p.active[1..][h - 1];
      CountUpdate(p.active, h, true);
    } else {
      assert forall j | 0 <= j < SLOTS - 1 :: p.active[1..][j] == p.active[j + 1];
    }
  }

  type Byte = b: int | 0 <= b < 256

  class VulkanContext {
    const active: array<bool>
    const size: array<nat>
    /** What has been written to the memory behind each slot. */
    const memory: array<seq<Byte>>

    ghost predicate Valid()
      reads this, active, size
    {
      memory.Length == SLOTS && ValidPool(State())
    }

    ghost function State(): (r: Pool)
      reads this, active, size
    {
      Pool(active[..], size[..])
    }

    constructor ()
      ensures Valid() && State() == Pool(seq(SLOTS, _ => false), seq(SLOTS, _ => 0))
      ensures fresh(active) && fresh(size) && fresh(memory)
    {
      active := new bool[SLOTS](_ => false);
      size := new nat[SLOTS](_ => 0);
      memory := new seq<Byte>[SLOTS](_ => []);
    }

    /** The scan shared by both claiming operations. */
    method FindFreeSlot() returns (handle: nat)
      requires Valid()
      ensures handle == FirstFree(active[..], 1)
    {
      handle := 0;
      var i := 1;
      while i < SLOTS
        invariant 1 <= i <= SLOTS && handle == 0
        invariant FirstFree(active[..], 1) == FirstFree(active[..], i)
      {
        if !active[i] {
          handle := i;
          break;
        }
        i := i + 1;
      }
    }

    method AllocateBuffer(bytes: nat, deviceOk: bool) returns (handle: nat)
      requires Valid()
      modifies active, size
      ensures Valid() && (State(), handle) == Claim(old(State()), bytes, deviceOk)
    {
      handle := FindFreeSlot();
      if handle == 0 {
        return 0;
      }
      if !deviceOk {
        return 0;
      }
      size[handle] := bytes;
      active[handle] := true;
    }

    method FreeBuffer(handle: nat)
      requires Valid()
      modifies active
      ensures Valid() && State() == Release(old(State()), handle)
    {
      if handle == 0 || handle >= SLOTS || !active[handle] {
        return;
      }
      active[handle] := false;
    }

    /** Copies the whole of `data`; the caller passes exactly the bytes to copy. */
    method UploadBuffer(handle: nat, data: seq<Byte>, mapOk: bool) returns (ok: bool)
      requires Valid()
      modifies memory
      ensures ok <==> 0 < handle < SLOTS && active[handle] && mapOk
      ensures ok ==> |memory[handle]| >= |data| && memory[handle][..|data|] == data
      ensures forall h | 0 <= h < SLOTS && (!ok || h != handle) :: memory[h] == old(memory[h])
    {
      if handle == 0 || handle >= SLOTS || !active[handle] {
        return false;
      }
      if !mapOk {
        return false;
      }
      var before := memory[handle];
      memory[handle] := data + if |before| > |data| then before[|data|..] else [];
      return true;
    }

    method ImportShm(fd: int, bytes: nat, deviceOk: bool) returns (handle: nat)
      requires Valid()
      modifies active, size
      ensures Valid()
      ensures (State(), handle) == if fd < 0 then (old(State()), 0) else Claim(old(State()), bytes, deviceOk)
    {
      if fd < 0 {
        return 0;
      }
      handle := FindFreeSlot();
      if handle == 0 {
        return 0;
      }
      if !deviceOk {
        return 0;
      }
      size[handle] := bytes;
      active[handle] := true;
    }
  }

  // ---- Who holds which handle, over whole runs ----

  /** The pool together with the handles its three kinds of users hold. */
  datatype World = World(
    pool: Pool,
    plugin: set<nat>,        // issued by ALLOCATE and not yet freed
    states: map<nat, nat>,   // instance_states_: state handle of each instance seen, 0 if none could be had
    imports: set<nat>,       // every import so far; none is ever released
    bypass: nat)             // shm_buffer_handle_

  function Fresh(): (w': World) {
    World(Pool(seq(SLOTS, _ => false), seq(SLOTS, _ => 0)), {}, map[], {}, 0)
  }

  datatype Act =
    | PluginAlloc(size: nat, deviceOk: bool)
    | PluginFree(handle: nat)
    | Process(instance: nat, deviceOk: bool)
    | SetBypass(enabled: bool, fd: int, size: nat, deviceOk: bool)

  /** process_stage: the instance's state buffer, allocated the first time the instance is seen. */
  function EnsureState(w: World, instance: nat, deviceOk: bool): (w': World)
    requires ValidPool(w.pool)
  {
    if instance in w.states then w
    else
      var (pool, h) := Claim(w.pool, 1024, deviceOk);
      w.(pool := pool, states := w.states[instance := h])
  }

  /** set_zero_copy_bypass: every call that enables it imports anew. */
  function Bypass(w: World, enabled: bool, fd: int, size: nat, deviceOk: bool): (w': World)
    requires ValidPool(w.pool)
  {
    if !enabled || fd < 0 then w.(bypass := 0)
    else
      var (pool, h) := Claim(w.pool, size, deviceOk);
      w.(pool := pool, imports := if h == 0 then w.imports else w.imports + {h}, bypass := h)
  }

  function Do(w: World, act: Act): (w': World)
    requires ValidPool(w.pool)
    ensures ValidPool(w'.pool)
  {
    match act
    case PluginAlloc(size, deviceOk) =>
      var (pool, h) := Claim(w.pool, size, deviceOk);
      w.(pool := pool, plugin := if h == 0 then w.plugin else w.plugin + {h})
    case PluginFree(h) => w.(pool := Release(w.pool, h), plugin := w.plugin - {h})
    case Process(instance, deviceOk) => EnsureState(w, instance, deviceOk)
    case SetBypass(enabled, fd, size, deviceOk) => Bypass(w, enabled, fd, size, deviceOk)
  }

  // ---- What each operation comes to ----

  predicate HasFreeSlot(p: Pool)
    requires ValidPool(p)
  {
    exists h :: 1 <= h < SLOTS && !p.active[h]
  }

  /** A slot that was free has been taken for `size` bytes, the lowest such slot; no other has changed. */
  predicate Takes(p: Pool, p': Pool, h: nat, size: nat)
    requires ValidPool(p) && ValidPool(p')
  {
    && 0 < h < SLOTS && !p.active[h] && p'.active[h] && p'.size[h] == size
    && (forall j | 1 <= j < h :: p.active[j])
    && (forall j | 0 <= j < SLOTS && j != h :: p'.active[j] == p.active[j] && p'.size[j] == p.size[j])
  }

  lemma ClaimTakes(p: Pool, size: nat, deviceOk: bool)
    requires ValidPool(p)
    ensures var (p', h) := Claim(p, size, deviceOk);
      && (h != 0 <==> deviceOk && HasFreeSlot(p)) && (h == 0 ==> p' == p)
      && (h != 0 ==> Takes(p, p', h, size) && Count(p'.active) == Count(p.active) + 1)
    ensures HasFreeSlot(p) <==> Count(p.active) < SLOTS - 1
  {
    ClaimCounts(p, size);
    if deviceOk && HasFreeSlot(p) {
      CountUpdate(p.active, Claim(p, size, deviceOk).1, true);
    }
  }

  /** ALLOCATE: with a working device and a free slot the plugin comes to hold a new buffer of the size
      it asked for, and otherwise nothing changes. */
  lemma AllocationExactly(w: World, size: nat, deviceOk: bool)
    requires ValidPool(w.pool)
    ensures var w' := Do(w, PluginAlloc(size, deviceOk));
      if deviceOk && HasFreeSlot(w.pool) then
        exists h :: Takes(w.pool, w'.pool, h, size) && w' == w.(pool := w'.pool, plugin := w.plugin + {h})
      else
        w' == w
  {
    ClaimTakes(w.pool, size, deviceOk);
    var h := Claim(w.pool, size, deviceOk).1;
    if h != 0 {
      assert Takes(w.pool, Do(w, PluginAlloc(size, deviceOk)).pool, h, size);
    }
  }

  /** FREE: the handle is dead and the plugin no longer holds it; nothing else changes. */
  lemma FreeExactly(w: World, h: nat)
    requires ValidPool(w.pool)
    ensures var w' := Do(w, PluginFree(h));
      && w' == w.(pool := w'.pool, plugin := w.plugin - {h}) && w'.pool.size == w.pool.size
      && forall j | 0 <= j < SLOTS :: w'.pool.active[j] <==> w.pool.active[j] && j != h
  {
  }

  /** process_stage, whether bypass is on or not: an instance not seen before is given a state buffer of
      1024 bytes exactly when the device works and fewer than 255 handles are live, and handle 0
      otherwise; one that was seen keeps what it has. */
  lemma StateBufferExactly(w: World, instance: nat, deviceOk: bool)
    requires ValidPool(w.pool)
    ensures var w' := Do(w, Process(instance, deviceOk));
      && instance in w'.states
      && (instance in w.states ==> w' == w)
      && (instance !in w.states ==>
            var h := w'.states[instance];
            && w' == w.(pool := w'.pool, states := w.states[instance := h])
            && (h != 0 <==> deviceOk && Count(w.pool.active) < SLOTS - 1)
            && (h != 0 ==> Takes(w.pool, w'.pool, h, 1024) && Count(w'.pool.active) == Count(w.pool.active) + 1)
            && (h == 0 ==> w'.pool == w.pool))
  {
    ClaimTakes(w.pool, 1024, deviceOk);
  }

  /** set_zero_copy_bypass: afterwards an import is in use exactly when bypass was enabled on a good
      descriptor, the device works and a slot was free. It is a new import; and when none is in use,
      nothing but that has changed. */
  lemma BypassExactly(w: World, enabled: bool, fd: int, size: nat, deviceOk: bool)
    requires ValidPool(w.pool)
    ensures var w' := Do(w, SetBypass(enabled, fd, size, deviceOk));
      && (w'.bypass != 0 <==> enabled && fd >= 0 && deviceOk && HasFreeSlot(w.pool))
      && (w'.bypass != 0 ==>
            && Takes(w.pool, w'.pool, w'.bypass, size)
            && w' == w.(pool := w'.pool, imports := w.imports + {w'.bypass}, bypass := w'.bypass))
      && (w'.bypass == 0 ==>
            w'.pool == w.pool && w'.plugin == w.plugin && w'.states == w.states && w'.imports == w.imports)
  {
    ClaimTakes(w.pool, size, deviceOk);
  }

  predicate TurnsBypassOn(act: Act) { act.SetBypass? && act.enabled }

  /** Once off, bypass stays off whatever else happens, until a call enables it. */
  lemma {:induction false} BypassStaysOff(w: World, acts: seq<Act>)
    requires ValidPool(w.pool) && w.bypass == 0 && forall i | 0 <= i < |acts| :: !TurnsBypassOn(acts[i])
    ensures Run(w, acts).bypass == 0
    decreases |acts|
  {
    if acts != [] {
      var act := acts[0];
      assert !TurnsBypassOn(act);
      if act.SetBypass? {
        BypassExactly(w, act.enabled, act.fd, act.size, act.deviceOk);
      }
      BypassStaysOff(Do(w, act), acts[1..]);
    }
  }

  ghost predicate StateHandle(w: World, h: nat) {
    h != 0 && exists i :: i in w.states && w.states[i] == h
  }

  /** The live handles are exactly the held ones, each held once; the import in use is a live import. */
  ghost predicate Disjoint(w: World) {
    && ValidPool(w.pool)
    && (forall h: nat | h < SLOTS :: w.pool.active[h] <==> h in w.plugin || StateHandle(w, h) || h in w.imports)
    && (forall h: nat | h in w.plugin || StateHandle(w, h) || h in w.imports :: 0 < h < SLOTS)
    && w.plugin !! w.imports
    && (forall h | StateHandle(w, h) :: h !in w.plugin && h !in w.imports)
    && (forall i, j | i in w.states && j in w.states && i != j :: w.states[i] == w.states[j] ==> w.states[i] == 0)
    && (w.bypass != 0 ==> w.bypass in w.imports)
  }

  /** FREE does not name a handle held by an instance or an import. (PluginKeepsHandlesApart in
      MemoryCalls.dfy shows that a plugin which frees only its own handles meets this.) */
  ghost predicate Disciplined(w: World, act: Act) {
    act.PluginFree? ==> !StateHandle(w, act.handle) && act.handle !in w.imports
  }

  lemma FreeingOwnHandlesIsDisciplined(w: World, h: nat)
    requires Disjoint(w) && h in w.plugin
    ensures Disciplined(w, PluginFree(h))
  {
  }

  lemma ClaimedIsNew(w: World, size: nat, deviceOk: bool)
    requires Disjoint(w)
    ensures var h := Claim(w.pool, size, deviceOk).1;
      h != 0 ==> h !in w.plugin && !StateHandle(w, h) && h !in w.imports
  {
  }

  lemma ActKeepsDisjoint(w: World, act: Act)
    requires Disjoint(w) && Disciplined(w, act)
    ensures Disjoint(Do(w, act))
  {
    var w' := Do(w, act);
    match act
    case PluginAlloc(size, deviceOk) =>
      ClaimedIsNew(w, size, deviceOk);
      assert forall h :: StateHandle(w', h) <==> StateHandle(w, h);
    case PluginFree(_) =>
      assert forall h :: StateHandle(w', h) <==> StateHandle(w, h);
    case SetBypass(_, _, size, deviceOk) =>
      ClaimedIsNew(w, size, deviceOk);
      assert forall h :: StateHandle(w', h) <==> StateHandle(w, h);
    case Process(instance, deviceOk) =>
      NewStateKeepsDisjoint(w, instance, deviceOk);
  }

  lemma NewStateKeepsDisjoint(w: World, instance: nat, deviceOk: bool)
    requires Disjoint(w)
    ensures Disjoint(EnsureState(w, instance, deviceOk))
  {
    if instance !in w.states {
      var w' := EnsureState(w, instance, deviceOk);
      var h' := w'.states[instance];
      ClaimedIsNew(w, 1024, deviceOk);
      assert h' != 0 ==> StateHandle(w', h');
      forall h ensures StateHandle(w', h) <==> StateHandle(w, h) || (h != 0 && h == h') {
        if StateHandle(w, h) {
          var i :| i in w.states && w.states[i] == h;
          assert w'.states[i] == h;
        }
      }
      forall i | i in w.states ensures w.states[i] == h' ==> h' == 0 {
        assert w.states[i] != 0 ==> StateHandle(w, w.states[i]);
      }
    }
  }

  ghost predicate DisciplinedRun(w: World, acts: seq<Act>)
    requires ValidPool(w.pool)
    decreases |acts|
  {
    acts == [] || (Disciplined(w, acts[0]) && DisciplinedRun(Do(w, acts[0]), acts[1..]))
  }

  function Run(w: World, acts: seq<Act>): (w': World)
    requires ValidPool(w.pool)
    ensures ValidPool(w'.pool)
    decreases |acts|
  {
    if acts == [] then w else Run(Do(w, acts[0]), acts[1..])
  }

  /** Over every disciplined run the three kinds of handle stay disjoint, two instances never share a
      state buffer, and an instance keeps the state handle it was first given. */
  lemma {:induction false} HandlesStayDisjoint(w: World, acts: seq<Act>)
    requires Disjoint(w) && DisciplinedRun(w, acts)
    ensures Disjoint(Run(w, acts))
    ensures forall i | i in w.states :: i in Run(w, acts).states && Run(w, acts).states[i] == w.states[i]
    decreases |acts|
  {
    if acts != [] {
      ActKeepsDisjoint(w, acts[0]);
      HandlesStayDisjoint(Do(w, acts[0]), acts[1..]);
    }
  }

  lemma FreshWorldIsDisjoint()
    ensures Disjoint(Fresh())
  {
  }

  /** The discipline cannot be relaxed beyond harmless calls: FREE of a handle keeps the kinds apart
      exactly when it is not the handle of an instance's state or of an import. */
  lemma FreeIsSafeExactlyWhen(w: World, h: nat)
    requires Disjoint(w)
    ensures Disjoint(Do(w, PluginFree(h))) <==> !StateHandle(w, h) && h !in w.imports
  {
    var w' := Do(w, PluginFree(h));
    assert forall k :: StateHandle(w', k) <==> StateHandle(w, k);
  }

  /** What goes wrong otherwise: after a FREE of instance 0's state handle, the next ALLOCATE hands
      the same buffer to the plugin while the instance goes on using it. */
  lemma FreeingAStateHandleSharesIt()
    ensures var acts := [Process(0, true), PluginFree(1), PluginAlloc(64, true)];
      var w := Run(Fresh(), acts);
      w.states == map[0 := 1] && w.plugin == {1} && !Disjoint(w)
  {
    var acts := [Process(0, true), PluginFree(1), PluginAlloc(64, true)];
    var w1 := Do(Fresh(), acts[0]);
    assert w1.states == map[0 := 1];
    var w2 := Do(w1, acts[1]);
    var w3 := Do(w2, acts[2]);
    assert acts[1..][0] == acts[1] && acts[1..][1..][0] == acts[2] && acts[1..][1..][1..] == [];
    assert Run(Fresh(), acts) == Run(w1, acts[1..]) == Run(w2, acts[1..][1..]) == Run(w3, []);
    assert w3.states[0] == 1 && StateHandle(w3, 1);
  }

  // ---- Zero-copy bypass accounting ----

  function Repeat(act: Act, n: nat): (acts: seq<Act>)
    ensures |acts| == n
  {
    if n == 0 then [] else [act] + Repeat(act, n - 1)
  }

  /** With bypass on, each turn of the worker loop imports the segment once more and releases nothing:
      n turns take the live count from a to min(255, a + n), and the turn that finds the pool full
      leaves handle 0, so that frames take the copy path from then on. */
  lemma {:induction false} BypassFillsThePool(w: World, fd: int, size: nat, n: nat)
    requires ValidPool(w.pool) && fd >= 0
    ensures var w' := Run(w, Repeat(SetBypass(true, fd, size, true), n));
      && Count(w'.pool.active) == (if Count(w.pool.active) + n < 255 then Count(w.pool.active) + n else 255)
      && (n > 0 ==> (w'.bypass == 0 <==> Count(w.pool.active) + n > 255))
    decreases n
  {
    assert w.pool.active == [false] + w.pool.active[1..];
    assert Count(w.pool.active) <= SLOTS - 1;
    if n > 0 {
      var act := SetBypass(true, fd, size, true);
      ClaimCounts(w.pool, size);
      assert Repeat(act, n)[1..] == Repeat(act, n - 1);
      BypassFillsThePool(Do(w, act), fd, size, n - 1);
    }
  }

  lemma {:induction false} ImportsGrow(w: World, acts: seq<Act>)
    requires ValidPool(w.pool)
    ensures w.imports <= Run(w, acts).imports
    decreases |acts|
  {
    if acts != [] {
      ImportsGrow(Do(w, acts[0]), acts[1..]);
    }
  }

  /** No import is ever released, whether bypass is turned off, on again or renewed: over a disciplined
      run each one keeps its handle live, and neither the plugin nor an instance can get it. */
  lemma ImportsAreNeverReleased(w: World, acts: seq<Act>, h: nat)
    requires Disjoint(w) && DisciplinedRun(w, acts) && h in w.imports
    ensures var w' := Run(w, acts);
      h < SLOTS && w'.pool.active[h] && h !in w'.plugin && !StateHandle(w', h)
  {
    HandlesStayDisjoint(w, acts);
    ImportsGrow(w, acts);
  }
}

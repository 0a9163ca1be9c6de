/**
 The two ways to watch file descriptors: an array for poll with swap-with-last removal,
 and a kernel set for epoll with a three-valued state in each channel.
 */
module Pollers {
  /** A selectable channel; the pollers keep their own bookkeeping in its index. */
  class Channel {
    const fd: nat
    var events: nat
    var index: int

    constructor (fd: nat)
      ensures this.fd == fd && events == 0 && index == -1
    {
      this.fd := fd;
      events := 0;
      index := -1;
    }
  }

  /** The non-empty event masks among the registered ones. */
  function WatchedOf(registered: map<nat, nat>): set<(nat, nat)> {
    set fd | fd in registered && registered[fd] != 0 :: (fd, registered[fd])
  }

  datatype PollFd = PollFd(fd: int, events: nat)

  /** A descriptor poll is told to ignore is stored as its negative counterpart. */
  function Ignored(fd: int): int {
    -fd - 1
  }

  function FdOf(p: PollFd): int {
    if p.fd < 0 then Ignored(p.fd) else p.fd
  }

  // ----- the slot array, as a value -----

  /** The slot a registered channel must have. */
  function SlotFor(fd: nat, events: nat, updatedOnce: bool): PollFd {
    PollFd(if events == 0 && !updatedOnce then Ignored(fd) else fd, events)
  }

  /** Channels (by descriptor, with their index) and slots correspond one to one, each slot with the right sign. */
  predicate Matched(slots: seq<PollFd>, index: map<nat, int>, registered: map<nat, nat>, once: set<nat>) {
    && registered.Keys == index.Keys && once <= index.Keys
    && (forall fd | fd in index ::
          0 <= index[fd] < |slots| && slots[index[fd]] == SlotFor(fd, registered[fd], fd in once))
    && (forall i | 0 <= i < |slots| :: FdOf(slots[i]) in index && index[FdOf(slots[i])] == i)
  }

  lemma MatchedAdd(slots: seq<PollFd>, index: map<nat, int>, registered: map<nat, nat>, once: set<nat>, fd: nat, events: nat)
    requires Matched(slots, index, registered, once) && fd !in index
    ensures Matched(slots + [PollFd(fd, events)], index[fd := |slots|], registered[fd := events], once + {fd})
  {
    var more := slots + [PollFd(fd, events)];
    forall i | 0 <= i < |more|
      ensures FdOf(more[i]) in index[fd := |slots|] && index[fd := |slots|][FdOf(more[i])] == i
    {
      assert i < |slots| ==> more[i] == slots[i];
    }
  }

  lemma MatchedUpdate(slots: seq<PollFd>, index: map<nat, int>, registered: map<nat, nat>, once: set<nat>, fd: nat, events: nat)
    requires Matched(slots, index, registered, once) && fd in index
    ensures Matched(slots[index[fd] := SlotFor(fd, events, false)], index, registered[fd := events], once - {fd})
  {
    var idx := index[fd];
    var after := slots[idx := SlotFor(fd, events, false)];
    forall g | g in index
      ensures 0 <= index[g] < |after| && after[index[g]] == SlotFor(g, registered[fd := events][g], g in once - {fd})
    {
      if g != fd {
        assert FdOf(slots[index[g]]) == g;
        assert FdOf(slots[idx]) == fd;
        assert index[g] != idx;
      }
    }
    forall i | 0 <= i < |after|
      ensures FdOf(after[i]) in index && index[FdOf(after[i])] == i
    {
      assert i != idx ==> after[i] == slots[i];
    }
  }

  /** The slots and indices after a removal: the last slot takes the freed place. */
  function SlotsWithout(slots: seq<PollFd>, idx: nat): seq<PollFd>
    requires idx < |slots|
  {
    slots[idx := slots[|slots| - 1]][..|slots| - 1]
  }

  lemma DropLast(slots: seq<PollFd>)
    requires slots != []
    ensures SlotsWithout(slots, |slots| - 1) == slots[..|slots| - 1]
  {
  }

  function IndexWithout(slots: seq<PollFd>, index: map<nat, int>, fd: nat): map<nat, int>
    requires fd in index && slots != [] && FdOf(slots[|slots| - 1]) >= 0
  {
    var last := FdOf(slots[|slots| - 1]) as nat;
    if last == fd then index - {fd} else (index - {fd})[last := index[fd]]
  }

  lemma MatchedRemove(slots: seq<PollFd>, index: map<nat, int>, registered: map<nat, nat>, once: set<nat>, fd: nat)
    requires Matched(slots, index, registered, once) && fd in index && fd !in once
    requires 0 <= index[fd] < |slots| && FdOf(slots[|slots| - 1]) >= 0
    ensures Matched(SlotsWithout(slots, index[fd]), IndexWithout(slots, index, fd), registered - {fd}, once)
  {
    var idx, n := index[fd], |slots| - 1;
    var last := FdOf(slots[n]) as nat;
    var after, inx := SlotsWithout(slots, idx), IndexWithout(slots, index, fd);
    assert last in index && index[last] == n;
    assert FdOf(slots[idx]) == fd;
    forall g | g in inx
      ensures g in registered && 0 <= inx[g] < |after| && after[inx[g]] == SlotFor(g, registered[g], g in once)
    {
      assert g in index && g != fd;
      assert FdOf(slots[index[g]]) == g;
      if g != last {
        assert index[g] != n && index[g] != idx;
        assert inx[g] == index[g];
      }
    }
    forall i | 0 <= i < |after|
      ensures FdOf(after[i]) in inx && inx[FdOf(after[i])] == i
    {
      if i == idx {
        assert after[i] == slots[n];
      } else {
        assert after[i] == slots[i];
        assert index[FdOf(slots[i])] == i;
      }
    }
  }

  class PollPoller {
    var pollfds: seq<PollFd>
    var channels: map<nat, Channel>
    /** The event mask of each channel at its latest update, and the channels updated only once. */
    ghost var registered: map<nat, nat>
    ghost var once: set<nat>

    constructor ()
      ensures Valid() && channels == map[] && registered == map[] && once == {}
    {
      pollfds, channels, registered, once := [], map[], map[], {};
    }

    ghost function Indices(): map<nat, int>
      reads this, channels.Values`index
    {
      map fd | fd in channels :: channels[fd].index
    }

    ghost predicate Valid()
      reads this, channels.Values`index
    {
      && (forall fd | fd in channels :: channels[fd].fd == fd)
      && Matched(pollfds, Indices(), registered, once)
    }

    /** What poll watches: slots with a real descriptor and a non-empty mask. */
    ghost function Watched(): set<(nat, nat)>
      reads this
    {
      set i | 0 <= i < |pollfds| && pollfds[i].fd >= 0 && pollfds[i].events != 0 ::
        (pollfds[i].fd as nat, pollfds[i].events)
    }

    /** The slots poll looks at are the registered channels with a non-empty mask. */
    lemma WatchesRegistered()
      requires Valid()
      ensures Watched() == WatchedOf(registered)
    {
      var index := Indices();
      forall p | p in Watched() ensures p in WatchedOf(registered) {
        var i :| 0 <= i < |pollfds| && pollfds[i].fd >= 0 && pollfds[i].events != 0
          && p == (pollfds[i].fd as nat, pollfds[i].events);
        assert index[FdOf(pollfds[i])] == i;
      }
      forall p | p in WatchedOf(registered) ensures p in Watched() {
        assert p.0 in index;
        var i := index[p.0];
        assert pollfds[i].fd >= 0 && pollfds[i].events != 0 && (pollfds[i].fd as nat, pollfds[i].events) == p;
      }
    }

    /** The channels of the first k slots with a returned event, in slot order. */
    ghost function ActiveUpTo(revents: seq<nat>, k: nat): seq<Channel>
      requires Valid() && k <= |pollfds| == |revents|
      reads this, channels.Values`index
    {
      if k == 0 then []
      else
        SlotHasChannel(k - 1);
        ActiveUpTo(revents, k - 1) + (if revents[k - 1] > 0 then [channels[FdOf(pollfds[k - 1])]] else [])
    }

    lemma SlotHasChannel(i: nat)
      requires Valid() && i < |pollfds|
      ensures FdOf(pollfds[i]) in channels
    {
      var index := Indices();
      assert FdOf(pollfds[i]) in index;
    }

    /** Stops after as many active slots as the kernel reported, or at the end. */
    method FillActiveChannels(revents: seq<nat>, numEvents: nat) returns (activeChannels: seq<Channel>)
      requires Valid() && |revents| == |pollfds|
      requires forall i | 0 <= i < |revents| && revents[i] > 0 :: pollfds[i].fd >= 0
      ensures var all := ActiveUpTo(revents, |pollfds|);
        activeChannels == if numEvents < |all| then all[..numEvents] else all
    {
      hide Matched;
      activeChannels := [];
      var i, left := 0, numEvents;
      while i < |pollfds| && left > 0
        invariant 0 <= i <= |pollfds|
        invariant activeChannels == ActiveUpTo(revents, i)
        invariant 0 <= left && left + |activeChannels| == numEvents
      {
        SlotHasChannel(i);
        ActiveGrows(revents, i + 1, |pollfds|);
        if revents[i] > 0 {
          left := left - 1;
          var channel := channels[pollfds[i].fd];
          activeChannels := activeChannels + [channel];
        }
        i := i + 1;
      }
      ActiveGrows(revents, i, |pollfds|);
      ghost var all := ActiveUpTo(revents, |pollfds|);
      assert activeChannels == all[..|activeChannels|];
      assert |activeChannels| == |all| ==> activeChannels == all;
    }

    lemma {:induction false} ActiveGrows(revents: seq<nat>, k: nat, n: nat)
      requires Valid() && k <= n <= |pollfds| == |revents|
      ensures ActiveUpTo(revents, k) <= ActiveUpTo(revents, n)
    {
      hide Matched;
      if k < n {
        ActiveGrows(revents, k, n - 1);
      }
    }

    /** The assertions updateChannel makes about the channel. */
    ghost predicate CanUpdate(c: Channel)
      reads this, c`index
    {
      if c.index < 0 then c.fd !in channels else c.fd in channels && channels[c.fd] == c
    }

    method UpdateChannel(c: Channel)
      requires Valid() && CanUpdate(c)
      modifies this, c`index
      ensures Valid() && CanUpdate(c)
      ensures channels == old(channels)[c.fd := c]
      ensures registered == old(registered)[c.fd := c.events]
      ensures once == if old(c.index) < 0 then old(once) + {c.fd} else old(once) - {c.fd}
    {
      hide Matched;
      ghost var index := Indices();
      if c.index < 0 {
        assert c !in channels.Values by { IndicesInRange(); }
        MatchedAdd(pollfds, index, registered, once, c.fd, c.events);
        pollfds := pollfds + [PollFd(c.fd, c.events)];
        c.index := |pollfds| - 1;
        channels := channels[c.fd := c];
        registered := registered[c.fd := c.events];
        once := once + {c.fd};
        assert Indices() == index[c.fd := |pollfds| - 1];
      } else {
        assert 0 <= c.index < |pollfds| by { IndicesInRange(); }
        MatchedUpdate(pollfds, index, registered, once, c.fd, c.events);
        var idx := c.index;
        var fd := if c.events == 0 then Ignored(c.fd) else c.fd;
        pollfds := pollfds[idx := PollFd(fd, c.events)];
        registered := registered[c.fd := c.events];
        once := once - {c.fd};
        assert Indices() == index;
        assert channels == old(channels)[c.fd := c];
      }
    }

    lemma KeysAgree()
      requires Valid()
      ensures registered.Keys == channels.Keys
    {
    }

    lemma IndicesInRange()
      requires Valid()
      ensures forall fd | fd in channels :: 0 <= channels[fd].index < |pollfds|
    {
      var index := Indices();
      assert forall fd | fd in channels :: fd in index && channels[fd].index == index[fd];
    }

    /** The assertion about the slot in removeChannel holds exactly when the channel was updated more than once. */
    lemma RemovableExactly(fd: nat)
      requires Valid() && fd in channels && registered[fd] == 0
      ensures fd in registered && 0 <= channels[fd].index < |pollfds|
      ensures pollfds[channels[fd].index].fd == Ignored(fd) <==> fd !in once
    {
      var index := Indices();
      assert fd in index;
    }

    lemma LastSlot()
      requires Valid() && pollfds != []
      ensures var last := FdOf(pollfds[|pollfds| - 1]); last in channels && channels[last].index == |pollfds| - 1
    {
      var index := Indices();
      assert index[FdOf(pollfds[|pollfds| - 1])] == |pollfds| - 1;
    }

    /** The removed channel's index is left as it was, so the same object cannot be added again. */
    method RemoveChannel(c: Channel)
      requires Valid() && c.fd in channels && channels[c.fd] == c
      requires c.events == 0 == registered[c.fd] && c.fd !in once
      modifies this, channels.Values`index
      ensures Valid() && !CanUpdate(c)
      ensures channels == old(channels) - {c.fd}
      ensures registered == old(registered) - {c.fd}
      ensures once == old(once)
    {
      hide Matched, SlotsWithout, FdOf, Ignored;
      ghost var index := Indices();
      Removal(c);
      var idx := c.index;
      assert pollfds[idx].fd == Ignored(c.fd);
      var n := |pollfds| - 1;
      channels := channels - {c.fd};
      registered := registered - {c.fd};
      if idx == n {
        DropLast(pollfds);
        pollfds := pollfds[..n];
        assert Indices() == index - {c.fd};
      } else {
        ghost var last := FdOf(pollfds[n]);
        FillFromEnd(idx);
        assert Indices() == (index - {c.fd})[last := idx];
      }
    }

    /** What removeChannel relies on. */
    lemma Removal(c: Channel)
      requires Valid() && c.fd in channels && channels[c.fd] == c
      requires registered[c.fd] == 0 && c.fd !in once
      ensures 0 <= c.index < |pollfds| && pollfds[c.index].fd == Ignored(c.fd) && Indices()[c.fd] == c.index
      ensures var last := FdOf(pollfds[|pollfds| - 1]);
        && last in channels && channels[last].index == |pollfds| - 1
        && (c.index == |pollfds| - 1 <==> last == c.fd)
        && Matched(SlotsWithout(pollfds, c.index),
             if c.index == |pollfds| - 1 then Indices() - {c.fd} else (Indices() - {c.fd})[last := c.index],
             registered - {c.fd}, once)
    {
      RemovableExactly(c.fd);
      LastSlot();
      MatchedRemove(pollfds, Indices(), registered, once, c.fd);
    }

    /** The last slot moves to idx, and its channel is told. */
    method FillFromEnd(idx: nat)
      requires idx < |pollfds| - 1 && FdOf(pollfds[|pollfds| - 1]) in channels
      modifies this`pollfds, channels.Values`index
      ensures pollfds == SlotsWithout(old(pollfds), idx)
      ensures var moved := channels[FdOf(old(pollfds)[|old(pollfds)| - 1])];
        moved.index == idx && forall d | d in channels.Values && d != moved :: d.index == old(d.index)
    {
      var channelAtEnd := pollfds[|pollfds| - 1].fd;
      pollfds := SwapLast(pollfds, idx);
      if channelAtEnd < 0 {
        channelAtEnd := Ignored(channelAtEnd);
      }
      channels[channelAtEnd].index := idx;
    }

    /** Channel's update: the owner sets the mask of a new or known channel and passes it on. */
    method SetEvents(fd: nat, events: nat)
      requires Valid()
      modifies this, channels.Values
      ensures Valid()
      ensures registered == old(registered)[fd := events]
      ensures once == if fd !in old(registered) then old(once) + {fd} else old(once) - {fd}
      ensures fresh(channels.Values - old(channels.Values))
    {
      var c: Channel;
      if fd in channels {
        c := channels[fd];
        IndicesInRange();
      } else {
        c := new Channel(fd);
      }
      c.events := events;
      UpdateChannel(c);
    }

    method DropChannel(fd: nat)
      requires Valid() && fd in channels && registered[fd] == 0 && fd !in once
      modifies this, channels.Values
      ensures Valid()
      ensures registered == old(registered) - {fd} && once == old(once)
      ensures channels.Values <= old(channels.Values)
    {
      var c := channels[fd];
      c.events := 0;
      RemoveChannel(c);
    }
  }

  /** The last slot swapped to position idx, and the new last one dropped. */
  function SwapLast(slots: seq<PollFd>, idx: nat): (r: seq<PollFd>)
    requires idx < |slots| - 1
    ensures r == SlotsWithout(slots, idx)
  {
    var n := |slots| - 1;
    var swapped := slots[idx := slots[n]][n := slots[idx]];
    assert swapped[..n] == SlotsWithout(slots, idx);
    swapped[..n]
  }

  // ----- epoll -----

  const New := -1
  const Added := 1
  const Deleted := 2

  datatype Control = Add | Mod | Del

  /** The kernel lists exactly the channels marked as added, with their latest mask. */
  predicate Kept(index: map<nat, int>, kernel: map<nat, nat>, registered: map<nat, nat>) {
    && registered.Keys == index.Keys && kernel.Keys <= index.Keys
    && forall fd | fd in index ::
         && index[fd] in {Added, Deleted}
         && (index[fd] == Added ==> fd in kernel && kernel[fd] == registered[fd])
         && (index[fd] == Deleted ==> fd !in kernel && registered[fd] == 0)
  }

  lemma KeptTells(index: map<nat, int>, kernel: map<nat, nat>, registered: map<nat, nat>, fd: nat)
    requires Kept(index, kernel, registered)
    ensures fd in index ==> index[fd] in {Added, Deleted} && (index[fd] == Added <==> fd in kernel)
    ensures fd !in index ==> fd !in kernel
  {
  }

  /** Adding or changing an entry, taking one with an empty mask off the kernel's list, and forgetting one. */
  lemma KeptUpdate(index: map<nat, int>, kernel: map<nat, nat>, registered: map<nat, nat>, fd: nat, events: nat)
    requires Kept(index, kernel, registered)
    ensures Kept(index[fd := Added], kernel[fd := events], registered[fd := events])
    ensures events == 0 ==> Kept(index[fd := Deleted], kernel - {fd}, registered[fd := events])
    ensures Kept(index - {fd}, kernel - {fd}, registered - {fd})
  {
  }

  class EPollPoller {
    var channels: map<nat, Channel>
    /** The kernel's interest list: descriptor and mask. */
    var kernel: map<nat, nat>
    ghost var registered: map<nat, nat>

    constructor ()
      ensures Valid() && channels == map[] && kernel == map[] && registered == map[]
    {
      channels, kernel, registered := map[], map[], map[];
    }

    ghost function Indices(): map<nat, int>
      reads this, channels.Values`index
    {
      map fd | fd in channels :: channels[fd].index
    }

    ghost predicate Valid()
      reads this, channels.Values`index
    {
      && (forall fd | fd in channels :: channels[fd].fd == fd)
      && Kept(Indices(), kernel, registered)
    }

    ghost function Watched(): set<(nat, nat)>
      reads this
    {
      WatchedOf(kernel)
    }

    /** The kernel's non-empty masks are the registered channels with a non-empty mask. */
    lemma WatchesRegistered()
      requires Valid()
      ensures Watched() == WatchedOf(registered)
    {
      ghost var index := Indices();
      assert forall fd | fd in registered :: fd in index;
      assert forall p | p in WatchedOf(registered) :: p.0 in kernel && kernel[p.0] == registered[p.0];
      assert forall p | p in WatchedOf(kernel) :: p.0 in registered && kernel[p.0] == registered[p.0];
    }

    ghost predicate CanUpdate(c: Channel)
      reads this, c`index
    {
      if c.index == New then c.fd !in channels else c.fd in channels && channels[c.fd] == c
    }

    /** epoll_ctl; the requires is when the kernel does not refuse. */
    method Update(operation: Control, c: Channel)
      requires operation.Add? <==> c.fd !in kernel
      modifies this`kernel
      ensures kernel == if operation.Del? then old(kernel) - {c.fd} else old(kernel)[c.fd := c.events]
    {
      match operation
      case Add => kernel := kernel[c.fd := c.events];
      case Mod => kernel := kernel[c.fd := c.events];
      case Del => kernel := kernel - {c.fd};
    }

    method UpdateChannel(c: Channel)
      requires Valid() && CanUpdate(c)
      modifies this, c`index
      ensures Valid() && CanUpdate(c)
      ensures channels == old(channels)[c.fd := c]
      ensures registered == old(registered)[c.fd := c.events]
    {
      hide Kept;
      ghost var index := Indices();
      KeptTells(index, kernel, registered, c.fd);
      KeptUpdate(index, kernel, registered, c.fd, c.events);
      assert forall fd | fd in channels && fd != c.fd :: channels[fd] != c;
      assert c.index != New ==> c.fd in index && index[c.fd] == c.index;
      if c.index == New || c.index == Deleted {
        if c.index == New {
          channels := channels[c.fd := c];
        }
        c.index := Added;
        Update(Add, c);
      } else {
        assert c.index == Added;
        if c.events == 0 {
          Update(Del, c);
          c.index := Deleted;
        } else {
          Update(Mod, c);
        }
      }
      registered := registered[c.fd := c.events];
      assert channels == old(channels)[c.fd := c];
      assert Indices() == index[c.fd := c.index];
    }

    /** The removed channel is marked new, so the same object can be added again. */
    method RemoveChannel(c: Channel)
      requires Valid() && c.fd in channels && channels[c.fd] == c
      requires c.events == 0 == registered[c.fd]
      modifies this, c`index
      ensures Valid() && CanUpdate(c)
      ensures channels == old(channels) - {c.fd}
      ensures registered == old(registered) - {c.fd}
    {
      hide Kept;
      ghost var index := Indices();
      KeptTells(index, kernel, registered, c.fd);
      KeptUpdate(index, kernel, registered, c.fd, 0);
      assert index[c.fd] == c.index;
      assert c.index == Added || c.index == Deleted;
      channels := channels - {c.fd};
      registered := registered - {c.fd};
      if c.index == Added {
        Update(Del, c);
      } else {
        assert kernel - {c.fd} == kernel;
      }
      assert forall fd | fd in channels :: channels[fd] != c;
      c.index := New;
      assert Indices() == index - {c.fd};
    }

    method SetEvents(fd: nat, events: nat)
      requires Valid()
      modifies this, channels.Values
      ensures Valid()
      ensures registered == old(registered)[fd := events]
      ensures fresh(channels.Values - old(channels.Values))
    {
      var c: Channel;
      if fd in channels {
        c := channels[fd];
        assert fd in Indices();
      } else {
        c := new Channel(fd);
      }
      c.events := events;
      UpdateChannel(c);
    }

    method DropChannel(fd: nat)
      requires Valid() && fd in channels && registered[fd] == 0
      modifies this, channels.Values
      ensures Valid()
      ensures registered == old(registered) - {fd}
      ensures channels.Values <= old(channels.Values)
    {
      var c := channels[fd];
      assert fd in Indices();
      c.events := 0;
      RemoveChannel(c);
    }
  }

  // ----- both pollers, side by side -----

  datatype Op = SetMask(fd: nat, events: nat) | Drop(fd: nat)

  /** The masks after a sequence of updates and removals. */
  function Registry(reg: map<nat, nat>, ops: seq<Op>): map<nat, nat> {
    if ops == [] then reg
    else
      var before := Registry(reg, ops[..|ops| - 1]);
      match ops[|ops| - 1]
      case SetMask(fd, events) => before[fd := events]
      case Drop(fd) => before - {fd}
  }

  /** The descriptors whose channel has been updated once only. */
  function UpdatedOnce(ops: seq<Op>): set<nat> {
    if ops == [] then {}
    else
      var n := |ops| - 1;
      match ops[n]
      case SetMask(fd, events) =>
        if fd in Registry(map[], ops[..n]) then UpdatedOnce(ops[..n]) - {fd} else UpdatedOnce(ops[..n]) + {fd}
      case Drop(_) => UpdatedOnce(ops[..n])
  }

  /** A channel is removed only with an empty mask, which is not its first. */
  predicate Legal(ops: seq<Op>) {
    forall i | 0 <= i < |ops| && ops[i].Drop? ::
      && ops[i].fd in Registry(map[], ops[..i])
      && Registry(map[], ops[..i])[ops[i].fd] == 0
      && ops[i].fd !in UpdatedOnce(ops[..i])
  }

  lemma RegistryStep(ops: seq<Op>, i: nat)
    requires i < |ops|
    ensures Registry(map[], ops[..i + 1]) ==
      match ops[i] case SetMask(fd, events) => Registry(map[], ops[..i])[fd := events]
                   case Drop(fd) => Registry(map[], ops[..i]) - {fd}
    ensures UpdatedOnce(ops[..i + 1]) ==
      match ops[i] case SetMask(fd, events) =>
                     if fd in Registry(map[], ops[..i]) then UpdatedOnce(ops[..i]) - {fd} else UpdatedOnce(ops[..i]) + {fd}
                   case Drop(_) => UpdatedOnce(ops[..i])
  {
    assert ops[..i + 1][..i] == ops[..i];
  }

  method RunPoll(ops: seq<Op>) returns (p: PollPoller)
    requires Legal(ops)
    ensures fresh(p) && fresh(p.channels.Values)
    ensures p.Valid() && p.registered == Registry(map[], ops)
  {
    hide Matched, Registry, UpdatedOnce;
    p := new PollPoller();
    RegistryStart(ops);
    var i := 0;
    while i < |ops|
      invariant 0 <= i <= |ops|
      invariant fresh(p) && fresh(p.channels.Values) && p.Valid()
      invariant p.registered == Registry(map[], ops[..i]) && p.once == UpdatedOnce(ops[..i])
    {
      RegistryStep(ops, i);
      p.KeysAgree();
      match ops[i] {
        case SetMask(fd, events) => p.SetEvents(fd, events);
        case Drop(fd) => p.DropChannel(fd);
      }
      i := i + 1;
    }
    assert ops[..i] == ops;
  }

  lemma RegistryStart(ops: seq<Op>)
    ensures Registry(map[], ops[..0]) == map[] && UpdatedOnce(ops[..0]) == {}
  {
  }

  method RunEPoll(ops: seq<Op>) returns (e: EPollPoller)
    requires Legal(ops)
    ensures fresh(e) && fresh(e.channels.Values)
    ensures e.Valid() && e.registered == Registry(map[], ops)
  {
    hide Registry, UpdatedOnce;
    e := new EPollPoller();
    RegistryStart(ops);
    var i := 0;
    while i < |ops|
      invariant 0 <= i <= |ops|
      invariant fresh(e) && fresh(e.channels.Values) && e.Valid()
      invariant e.registered == Registry(map[], ops[..i])
    {
      RegistryStep(ops, i);
      match ops[i] {
        case SetMask(fd, events) => e.SetEvents(fd, events);
        case Drop(fd) => e.DropChannel(fd);
      }
      i := i + 1;
    }
    assert ops[..i] == ops;
  }

  /** Both pollers watch the same descriptors with the same masks after any legal sequence. */
  method RunBoth(ops: seq<Op>) returns (p: PollPoller, e: EPollPoller)
    requires Legal(ops)
    ensures p.Valid() && e.Valid()
    ensures p.Watched() == e.Watched() == WatchedOf(Registry(map[], ops))
  {
    p := RunPoll(ops);
    e := RunEPoll(ops);
    p.WatchesRegistered();
    e.WatchesRegistered();
  }
}

/** scrobbler-curl.c: bringing the registered poll descriptors in line with the descriptor sets
    that curl reports. */
module PollSet {

  datatype Condition = In | Out | Err | Hup

  /** The three `fd_set`s. */
  datatype FdSets = FdSets(read: set<int>, write: set<int>, error: set<int>)

  /** The events to wait for on one descriptor, as the three sets ask for them. */
  function Mask(fd: int, s: FdSets): set<Condition> {
    (if fd in s.read then {In, Hup, Err} else {})
    + (if fd in s.write then {Out, Err} else {})
    + (if fd in s.error then {Hup, Err} else {})
  }

  function Without(s: FdSets, fds: set<int>): FdSets {
    FdSets(s.read - fds, s.write - fds, s.error - fds)
  }

  /** Taking one descriptor out of the sets changes no other descriptor's events. */
  lemma MaskWithout(fd: int, s: FdSets, fds: set<int>)
    ensures Mask(fd, Without(s, fds)) == if fd in fds then {} else Mask(fd, s)
  {
  }

  /** Which event is waited for because of which set. */
  predicate AsksFor(events: set<Condition>, fd: int, s: FdSets) {
    && (In in events <==> fd in s.read)
    && (Out in events <==> fd in s.write)
    && (Hup in events <==> fd in s.read || fd in s.error)
    && (Err in events <==> fd in s.read || fd in s.write || fd in s.error)
  }

  lemma MaskAsksFor(fd: int, s: FdSets)
    ensures AsksFor(Mask(fd, s), fd, s)
  {
  }

  /** A descriptor has events exactly when one of the sets holds it. */
  lemma MaskAsked(fd: int, s: FdSets)
    ensures Mask(fd, s) != {} <==> fd in s.read + s.write + s.error
  {
    assert fd in s.read ==> In in Mask(fd, s);
    assert fd in s.write ==> Out in Mask(fd, s);
    assert fd in s.error ==> Hup in Mask(fd, s);
  }

  /** `http_client_fd_events`: reports the events of a descriptor and clears it in the sets. */
  method FdEvents(fd: int, sets: FdSets) returns (events: set<Condition>, rest: FdSets)
    ensures events == Mask(fd, sets) && AsksFor(events, fd, sets)
    ensures rest == Without(sets, {fd}) == FdSets(sets.read - {fd}, sets.write - {fd}, sets.error - {fd})
  {
    events, rest := {}, sets;
    if fd in rest.read {
      events := events + {In, Hup, Err};
      rest := rest.(read := rest.read - {fd});
    }
    if fd in rest.write {
      events := events + {Out, Err};
      rest := rest.(write := rest.write - {fd});
    }
    if fd in rest.error {
      events := events + {Hup, Err};
      rest := rest.(error := rest.error - {fd});
    }
  }

  /** `GPollFD`. */
  class PollFd {
    const fd: int
    var events: set<Condition>

    constructor (fd: int, events: set<Condition>)
      ensures this.fd == fd && this.events == events
    {
      this.fd := fd;
      this.events := events;
    }
  }

  function ElementsOf(s: seq<PollFd>): set<PollFd> {
    set p | p in s
  }

  /** No descriptor is listed twice. */
  ghost predicate Distinct(s: seq<PollFd>) {
    forall i, j :: 0 <= i < j < |s| ==> s[i].fd != s[j].fd
  }

  lemma DistinctPrepend(p: PollFd, s: seq<PollFd>)
    requires Distinct(s) && forall q :: q in s ==> q.fd != p.fd
    ensures Distinct([p] + s)
    ensures ElementsOf([p] + s) == ElementsOf(s) + {p}
  {
  }

  lemma DistinctHead(p: PollFd, tail: seq<PollFd>)
    requires Distinct([p] + tail)
    ensures Distinct(tail) && p !in tail
    ensures forall q :: q in tail ==> q.fd != p.fd
  {
    var s := [p] + tail;
    assert forall k :: 0 <= k < |tail| ==> s[k + 1] == tail[k] && s[0].fd != s[k + 1].fd;
  }

  class HttpClient {
    var fds: seq<PollFd>
    /** The descriptors registered with the main loop's source. */
    var polls: set<PollFd>

    ghost predicate Valid()
      reads this, fds
    {
      && Distinct(fds)
      && polls == ElementsOf(fds)
      && forall p :: p in fds ==> p.events != {}
    }

    /** Every listed descriptor waits for what `sets` asks of it. */
    ghost predicate Current(sets: FdSets)
      reads this, fds
    {
      forall p :: p in fds ==> p.events == Mask(p.fd, sets) && p.events != {}
    }

    /** One turn of the first loop: an old descriptor is kept, re-registered or dropped. */
    method UpdateOne(p: PollFd, ghost tail: seq<PollFd>, sets: FdSets, ghost all: FdSets, ghost done: set<int>)
        returns (rest: FdSets)
      requires Distinct([p] + tail) && Distinct(fds) && Current(all)
      requires forall q :: q in fds ==> q.fd in done && q.fd != p.fd && q !in tail
      requires p.events != {} && p.fd !in done && sets == Without(all, done)
      requires polls == ElementsOf(fds) + {p} + ElementsOf(tail)
      modifies this, p
      ensures rest == Without(all, done + {p.fd})
      ensures Distinct(fds) && Current(all)
      ensures fds == if Mask(p.fd, all) != {} then [p] + old(fds) else old(fds)
      ensures polls == ElementsOf(fds) + ElementsOf(tail)
    {
      MaskWithout(p.fd, all, done);
      var events;
      events, rest := FdEvents(p.fd, sets);
      DistinctHead(p, tail);
      if events != p.events {
        polls := polls - {p};
      }
      if events != {} {
        if events != p.events {
          p.events := events;
          polls := polls + {p};
        }
        DistinctPrepend(p, fds);
        fds := [p] + fds;
      }
    }

    /** The first loop: all old descriptors. */
    method UpdateOld(sets: FdSets) returns (rest: FdSets)
      requires Valid()
      modifies this, fds
      ensures Distinct(fds) && Current(sets) && polls == ElementsOf(fds)
      ensures rest == Without(sets, FdsOf(old(fds)))
      ensures forall p :: p in old(fds) && Mask(p.fd, sets) != {} ==> p in fds
      ensures forall p :: p in fds ==> p in old(fds)
    {
      hide Mask, Without;
      var list := fds;
      ghost var olds, k := fds, 0;
      fds := [];
      rest := sets;
      WithoutNone(sets);
      while list != []
        invariant 0 <= k <= |olds| && list == olds[k..]
        invariant rest == Without(sets, FdsOf(olds[..k]))
        invariant Distinct(fds) && Current(sets)
        invariant polls == ElementsOf(fds) + ElementsOf(list)
        invariant forall p :: p in fds ==> p in olds[..k]
        invariant forall p :: p in olds[..k] && Mask(p.fd, sets) != {} ==> p in fds
        invariant forall p :: p in list ==> p.events == old(p.events)
        decreases |list|
      {
        var p := list[0];
        assert list == [p] + list[1..];
        DistinctAt(olds, k);
        assert olds[..k + 1] == olds[..k] + [p];
        assert FdsOf(olds[..k + 1]) == FdsOf(olds[..k]) + {p.fd};
        rest := UpdateOne(p, list[1..], rest, sets, FdsOf(olds[..k]));
        list := list[1..];
        k := k + 1;
      }
      assert olds[..k] == olds;
    }

    /** The second loop: descriptors that curl has and the list has not. */
    method AddNew(sets: FdSets, maxFd: int, ghost all: FdSets, ghost done: set<int>)
      requires sets == Without(all, done)
      requires Distinct(fds) && Current(all) && polls == ElementsOf(fds)
      requires forall p :: p in fds ==> p.fd in done
      modifies this
      ensures Distinct(fds) && Current(all) && polls == ElementsOf(fds)
      ensures forall p :: p in old(fds) ==> p in fds
      ensures forall p :: p in fds && p !in old(fds) ==> fresh(p)
      ensures FdsOf(fds) == FdsOf(old(fds)) + set fd | 0 <= fd <= maxFd && fd !in done && Mask(fd, all) != {}
    {
      hide Mask, Without;
      var rest := sets;
      var fd := 0;
      ghost var seen := done;
      while fd <= maxFd
        invariant 0 <= fd <= maxFd + 1 || (fd == 0 && maxFd < 0)
        invariant forall f :: f in seen <==> f in done || 0 <= f < fd
        invariant rest == Without(all, seen)
        invariant Distinct(fds) && Current(all) && polls == ElementsOf(fds)
        invariant forall p :: p in old(fds) ==> p in fds
        invariant forall p :: p in fds && p !in old(fds) ==> fresh(p)
        invariant forall p :: p in fds ==> p.fd in seen
        invariant FdsOf(fds) == FdsOf(old(fds)) + set f | 0 <= f < fd && f !in done && Mask(f, all) != {}
      {
        MaskWithout(fd, all, seen);
        WithoutMore(all, seen, fd);
        var events;
        events, rest := FdEvents(fd, rest);
        if events != {} {
          var p := new PollFd(fd, events);
          polls := polls + {p};
          DistinctPrepend(p, fds);
          fds := [p] + fds;
        }
        seen := seen + {fd};
        fd := fd + 1;
      }
    }

    /** `http_client_update_fds`. Whatever was registered before, afterwards exactly the
        descriptors that curl asks for are listed, each once and with the events asked for, and
        the registered descriptors are the listed ones. Old descriptors that are still asked
        for keep their object. When curl cannot tell, nothing changes. */
    method UpdateFds(ok: bool, sets: FdSets, maxFd: int)
      requires Valid()
      requires forall fd :: fd in sets.read + sets.write + sets.error ==> 0 <= fd <= maxFd
      modifies this, fds
      ensures Valid()
      ensures !ok ==> fds == old(fds) && polls == old(polls) && forall p :: p in fds ==> p.events == old(p.events)
      ensures ok ==> forall fd :: fd in FdsOf(fds) <==> Mask(fd, sets) != {}
      ensures ok ==> forall p :: p in fds ==> p.events == Mask(p.fd, sets) && AsksFor(p.events, p.fd, sets)
      ensures forall p :: p in old(fds) && Mask(p.fd, sets) != {} ==> p in fds
      ensures forall p :: p in fds ==> p in old(fds) || fresh(p)
    {
      if !ok {
        return;
      }
      var rest := UpdateOld(sets);
      assert forall fd :: fd in FdsOf(fds) <==> fd in FdsOf(old(fds)) && Mask(fd, sets) != {};
      ghost var kept := fds;
      AddNew(rest, maxFd, sets, FdsOf(old(fds)));
      forall fd | Mask(fd, sets) != {}
        ensures 0 <= fd <= maxFd
      {
        MaskAsked(fd, sets);
      }
      assert forall fd :: fd in FdsOf(fds) ==> Mask(fd, sets) != {};
      forall p | p in fds
        ensures AsksFor(p.events, p.fd, sets)
      {
        MaskAsksFor(p.fd, sets);
      }
      assert forall fd :: Mask(fd, sets) != {} ==> fd in FdsOf(kept) || fd !in FdsOf(old(fds));
    }
  }

  lemma WithoutMore(all: FdSets, seen: set<int>, fd: int)
    ensures Without(Without(all, seen), {fd}) == Without(all, seen + {fd})
  {
  }

  lemma WithoutNone(sets: FdSets)
    ensures Without(sets, FdsOf([])) == sets
  {
    assert FdsOf([]) == {};
  }

  /** The descriptors of a list. */
  function FdsOf(s: seq<PollFd>): set<int> {
    set p | p in s :: p.fd
  }

  lemma DistinctAt(s: seq<PollFd>, k: nat)
    requires Distinct(s) && k < |s|
    ensures Distinct([s[k]] + s[k + 1..])
    ensures s[k].fd !in FdsOf(s[..k])
    ensures forall q :: q in s[..k] ==> q.fd != s[k].fd && q !in s[k + 1..]
  {
    var t := [s[k]] + s[k + 1..];
    assert t == s[k..];
    assert forall j :: 0 <= j < k ==> s[..k][j] == s[j];
  }
}

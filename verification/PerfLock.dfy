/** The perf-lock library as its clients see it. */
module PerfLock {

  /** The perf-lock library: the requests held, by handle, and the next handle it will give out. */
  datatype Lib = Lib(fresh_: nat, live: map<int, seq<int>>)

  /** A live handle's request is replaced, any other handle gives a never-used one; a failing call
      changes nothing and returns -1. */
  function Acquire(lib: Lib, handle: int, request: seq<int>, fails: bool): (Lib, int) {
    if fails then (lib, -1)
    else if handle in lib.live then (lib.(live := lib.live[handle := request]), handle)
    else (Lib(lib.fresh_ + 1, lib.live[lib.fresh_ := request]), lib.fresh_)
  }

  /** Releasing a handle that is not live does nothing. */
  function Release(lib: Lib, handle: int): Lib {
    lib.(live := lib.live - {handle})
  }

  ghost predicate WellFormed(lib: Lib) {
    1 <= lib.fresh_ && forall x :: x in lib.live ==> 1 <= x < lib.fresh_
  }

  /** What a caller gets: a positive handle that holds its request, its own if that was still live
      and otherwise one that was not; nobody else's request is touched. */
  lemma AcquireGives(lib: Lib, handle: int, request: seq<int>, fails: bool)
    requires WellFormed(lib)
    ensures var (lib', h) := Acquire(lib, handle, request, fails);
      && WellFormed(lib') && lib.fresh_ <= lib'.fresh_
      && (fails <==> h == -1)
      && (!fails ==> h > 0 && h in lib'.live && lib'.live[h] == request)
      && (!fails ==> if handle in lib.live then h == handle else lib.fresh_ <= h)
      && (forall x :: x != h ==> (x in lib'.live <==> x in lib.live) && (x in lib.live ==> lib'.live[x] == lib.live[x]))
  {}
}

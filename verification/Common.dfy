/** Small things several components share. */
module Common {
  datatype Option<T> = None | Some(value: T)

  type byte = b: int | 0 <= b < 256

  function One(b: bool): nat { if b then 1 else 0 }

  lemma Without(s: set<nat>, t: nat)
    ensures |s - {t}| + One(t in s) == |s|
  {
    assert s == s - {t} + if t in s then {t} else {};
  }
}

/** Where a trapped syscall is sent: the answer of the routing state, used at the SIGSYS boundary. */
module SyscallRoute {
  datatype Route = Route(target: nat, raxIsResume: bool)
}

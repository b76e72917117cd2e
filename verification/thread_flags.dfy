/** Thread constants shared by user code and the kernel: thread ids, names,
    kernel-configuration bits, property and yield codes, and the 32-bit
    `flags` word given to thread creation. That word carries a thread kind in
    its low 16 bits and, shifted up by 16, a mask of permissions the new
    thread is NOT to receive. */
module ThreadFlags {
  import opened Wrappers
  import opened MachineWords

  // ---------------------------------------------------------------------
  // Thread ids and names

  /** The "no thread" id. */
  const INVALID_THREAD: int := -1
  /** The property API reuses the invalid id to mean "the calling thread". */
  const CURRENT_THREAD: int := INVALID_THREAD

  /** "The calling thread" and "no thread" are one and the same id, and no
      table index can be mistaken for it. */
  lemma IdSentinels(tid: nat)
    ensures CURRENT_THREAD == INVALID_THREAD == -1
    ensures tid != INVALID_THREAD
  {
  }

  /** Size of a name buffer, terminator included. */
  const THREAD_NAME_SIZE: nat := 13
  /** Longest name, in bytes as `strlen()` counts them. */
  const THREAD_NAME_MAX_LEN: nat := THREAD_NAME_SIZE - 1

  /** The C string terminator. */
  const NUL: Byte := 0

  /** A name that can be stored: at most THREAD_NAME_MAX_LEN bytes, and a C
      string (no NUL byte inside it). */
  predicate ValidName(name: seq<Byte>)
  {
    |name| <= THREAD_NAME_MAX_LEN && NUL !in name
  }

  /** A name laid out in a THREAD_NAME_SIZE buffer, the unused tail zeroed. */
  function NameBuffer(name: seq<Byte>): (buf: seq<Byte>)
    requires ValidName(name)
    ensures |buf| == THREAD_NAME_SIZE
    ensures buf[..|name|] == name
    ensures forall i :: |name| <= i < |buf| ==> buf[i] == NUL
  {
    name + seq(THREAD_NAME_SIZE - |name|, _ => NUL)
  }

  /** The C string held by a buffer: everything before the first NUL. */
  function CString(buf: seq<Byte>): (s: seq<Byte>)
    ensures |s| <= |buf| && s == buf[..|s|]
    ensures NUL !in s
    ensures |s| < |buf| ==> buf[|s|] == NUL
  {
    if buf == [] || buf[0] == NUL then [] else [buf[0]] + CString(buf[1..])
  }

  /** A valid name always fits, terminator included, and reads back intact. */
  lemma {:induction false} NameRoundTrip(name: seq<Byte>)
    requires ValidName(name)
    ensures THREAD_NAME_MAX_LEN == 12
    ensures |name| + 1 <= THREAD_NAME_SIZE
    ensures CString(NameBuffer(name)) == name
  {
    var buf := NameBuffer(name);
    CStringOfPrefix(name, buf[|name|..]);
    assert buf == name + buf[|name|..];
  }

  /** Reading a C string from a NUL-free prefix followed by a NUL. */
  lemma {:induction false} CStringOfPrefix(s: seq<Byte>, tail: seq<Byte>)
    requires NUL !in s
    requires |tail| > 0 && tail[0] == NUL
    ensures CString(s + tail) == s
    decreases |s|
  {
    if s != [] {
      assert (s + tail)[1..] == s[1..] + tail;
      CStringOfPrefix(s[1..], tail);
    }
  }

  // ---------------------------------------------------------------------
  // Kernel configuration bits

  datatype KernelConfigFlag = DestroyOnStackErr | LogScheduler | LogThreads | ColourOutput

  const KCFG_DESTROY_ON_STACK_ERR: bv32 := 1 << 0
  const KCFG_LOG_SCHEDULER: bv32 := 1 << 1
  const KCFG_LOG_THREADS: bv32 := 1 << 2
  const KCFG_COLOUR_OUTPUT: bv32 := 1 << 3

  /** Exactly one bit set. */
  predicate IsSingleBit32(b: bv32)
  {
    b != 0 && b & (b - 1) == 0
  }

  predicate IsSingleBit16(b: bv16)
  {
    b != 0 && b & (b - 1) == 0
  }

  /** The configuration word bit of a flag. */
  function KcfgBit(f: KernelConfigFlag): (b: bv32)
    ensures IsSingleBit32(b)
    ensures b & KCFG_ALL == b
  {
    match f
    case DestroyOnStackErr => KCFG_DESTROY_ON_STACK_ERR
    case LogScheduler => KCFG_LOG_SCHEDULER
    case LogThreads => KCFG_LOG_THREADS
    case ColourOutput => KCFG_COLOUR_OUTPUT
  }

  /** The four flags occupy four different bits. */
  lemma KcfgBitsDisjoint(f: KernelConfigFlag, g: KernelConfigFlag)
    ensures f != g <==> KcfgBit(f) & KcfgBit(g) == 0
  {
  }

  /** Which flags a configuration word has set. */
  function KcfgFlagsOf(w: bv32): (s: set<KernelConfigFlag>)
    ensures forall f :: f in s <==> w & KcfgBit(f) != 0
  {
    set f: KernelConfigFlag | f in [DestroyOnStackErr, LogScheduler, LogThreads, ColourOutput]
                               && w & KcfgBit(f) != 0
  }

  /** The bits of the four configuration flags. */
  const KCFG_ALL: bv32 := 0xF

  /** The configuration word enabling exactly a set of flags: the OR of
      their bits. */
  function KcfgWordOf(s: set<KernelConfigFlag>): (w: bv32)
    ensures forall f :: w & KcfgBit(f) != 0 <==> f in s
    ensures w & !KCFG_ALL == 0
  {
    (if DestroyOnStackErr in s then KCFG_DESTROY_ON_STACK_ERR else 0)
    | (if LogScheduler in s then KCFG_LOG_SCHEDULER else 0)
    | (if LogThreads in s then KCFG_LOG_THREADS else 0)
    | (if ColourOutput in s then KCFG_COLOUR_OUTPUT else 0)
  }

  /** Set to word and back loses nothing. */
  lemma KcfgFlagsOfWordOf(s: set<KernelConfigFlag>)
    ensures KcfgFlagsOf(KcfgWordOf(s)) == s
  {
  }

  /** Word to set and back keeps exactly the four configuration bits. */
  lemma KcfgWordOfFlagsOf(w: bv32)
    ensures KcfgWordOf(KcfgFlagsOf(w)) == w & KCFG_ALL
  {
  }

  // ---------------------------------------------------------------------
  // Property and yield codes

  datatype ThreadProperty =
    | Id | Name | Child | State | Permissions | Registers | ErrnoPtr | PendingSignals | SignalHandler

  const PROPERTY_COUNT: nat := 9

  const ALL_PROPERTIES: seq<ThreadProperty> :=
    [Id, Name, Child, State, Permissions, Registers, ErrnoPtr, PendingSignals, SignalHandler]

  /** TPROP_* code of a property. */
  function PropertyCode(p: ThreadProperty): (n: nat)
    ensures n < PROPERTY_COUNT
    ensures ALL_PROPERTIES[n] == p
  {
    match p
    case Id => 0
    case Name => 1
    case Child => 2
    case State => 3
    case Permissions => 4
    case Registers => 5
    case ErrnoPtr => 6
    case PendingSignals => 7
    case SignalHandler => 8
  }

  function DecodeProperty(n: nat): (r: Option<ThreadProperty>)
    ensures r.Some? <==> n < PROPERTY_COUNT
    ensures r.Some? ==> PropertyCode(r.value) == n
  {
    if n < PROPERTY_COUNT then Some(ALL_PROPERTIES[n]) else None
  }

  lemma PropertyCodesDistinct(p: ThreadProperty, q: ThreadProperty)
    ensures PropertyCode(p) == PropertyCode(q) <==> p == q
    ensures DecodeProperty(PropertyCode(p)) == Some(p)
  {
  }

  datatype YieldKind = YieldAny | YieldTo | YieldNext

  /** YIELD_* code of a yield discipline. */
  function YieldCode(k: YieldKind): (n: nat)
    ensures n <= 2
    ensures n == 0 <==> k == YieldAny
    ensures n == 1 <==> k == YieldTo
  {
    match k
    case YieldAny => 0
    case YieldTo => 1
    case YieldNext => 2
  }

  function DecodeYield(n: nat): (r: Option<YieldKind>)
    ensures r.Some? <==> n <= 2
    ensures r.Some? ==> YieldCode(r.value) == n
  {
    if n == 0 then Some(YieldAny)
    else if n == 1 then Some(YieldTo)
    else if n == 2 then Some(YieldNext)
    else None
  }

  lemma YieldCodesDistinct(k: YieldKind, l: YieldKind)
    ensures YieldCode(k) == YieldCode(l) <==> k == l
    ensures DecodeYield(YieldCode(k)) == Some(k)
  {
  }

  // ---------------------------------------------------------------------
  // Permissions

  datatype Permission = Create | File | Alloc | KConfig | TConfig | TConfigOther

  const ALL_PERMISSIONS: seq<Permission> := [Create, File, Alloc, KConfig, TConfig, TConfigOther]

  const TPERM_NONE: bv16 := 0
  const TPERM_ALL: bv16 := 0xFFFF
  const TPERM_CREATE: bv16 := 1 << 0
  const TPERM_FILE: bv16 := 1 << 1
  const TPERM_ALLOC: bv16 := 1 << 2
  const TPERM_KCONFIG: bv16 := 1 << 3
  const TPERM_TCONFIG: bv16 := 1 << 4
  const TPERM_TCONFIG_OTHER: bv16 := 1 << 5

  /** The bit a permission occupies in a thread's 16-bit permission mask. */
  function PermBit(p: Permission): (b: bv16)
    ensures IsSingleBit16(b)
    ensures b & NAMED_PERMISSIONS == b
  {
    match p
    case Create => TPERM_CREATE
    case File => TPERM_FILE
    case Alloc => TPERM_ALLOC
    case KConfig => TPERM_KCONFIG
    case TConfig => TPERM_TCONFIG
    case TConfigOther => TPERM_TCONFIG_OTHER
  }

  /** Distinct permissions occupy distinct bits. */
  lemma PermBitsDisjoint(p: Permission, q: Permission)
    ensures p != q <==> PermBit(p) & PermBit(q) == 0
  {
  }

  /** The permissions a mask grants. */
  function PermissionsOf(mask: bv16): (s: set<Permission>)
    ensures forall p :: p in s <==> mask & PermBit(p) != 0
  {
    set p | p in ALL_PERMISSIONS && mask & PermBit(p) != 0
  }

  /** The bits of the permissions among `ps` that are in `s`. */
  function MaskOver(ps: seq<Permission>, s: set<Permission>): bv16
  {
    if ps == [] then 0
    else (if ps[0] in s then PermBit(ps[0]) else 0) | MaskOver(ps[1..], s)
  }

  lemma {:induction false} MaskOverBit(ps: seq<Permission>, s: set<Permission>, p: Permission)
    ensures MaskOver(ps, s) & PermBit(p) != 0 <==> p in s && p in ps
    decreases |ps|
  {
    if ps != [] {
      MaskOverBit(ps[1..], s, p);
      PermBitsDisjoint(ps[0], p);
      assert p in ps <==> p == ps[0] || p in ps[1..];
    }
  }

  /** The bits of the six named permissions. */
  const NAMED_PERMISSIONS: bv16 := 0x3F

  lemma {:induction false} MaskOverNamed(ps: seq<Permission>, s: set<Permission>)
    ensures MaskOver(ps, s) & !NAMED_PERMISSIONS == 0
    decreases |ps|
  {
    if ps != [] {
      MaskOverNamed(ps[1..], s);
      var b := if ps[0] in s then PermBit(ps[0]) else 0;
      assert b & !NAMED_PERMISSIONS == 0;
    }
  }

  /** The mask granting exactly a set of permissions. */
  function MaskOf(s: set<Permission>): (m: bv16)
    ensures forall p :: m & PermBit(p) != 0 <==> p in s
    ensures m & !NAMED_PERMISSIONS == 0
  {
    var m := MaskOver(ALL_PERMISSIONS, s);
    forall p ensures m & PermBit(p) != 0 <==> p in s {
      MaskOverBit(ALL_PERMISSIONS, s, p);
    }
    MaskOverNamed(ALL_PERMISSIONS, s);
    m
  }

  /** Set to mask and back loses nothing. */
  lemma PermissionsOfMaskOf(s: set<Permission>)
    ensures PermissionsOf(MaskOf(s)) == s
  {
  }

  /** Mask to set and back keeps exactly the named bits: the other ten bits
      of, say, TPERM_ALL stand for no permission. */
  lemma MaskOfPermissionsOf(mask: bv16)
    ensures MaskOf(PermissionsOf(mask)) == mask & NAMED_PERMISSIONS
  {
    var m := MaskOf(PermissionsOf(mask));
    SameBit(m, mask, Create);
    SameBit(m, mask, File);
    SameBit(m, mask, Alloc);
    SameBit(m, mask, KConfig);
    SameBit(m, mask, TConfig);
    SameBit(m, mask, TConfigOther);
    BitsDetermineNamed(m, mask);
  }

  lemma SameBit(m: bv16, mask: bv16, p: Permission)
    requires m == MaskOf(PermissionsOf(mask))
    ensures m & PermBit(p) == mask & PermBit(p)
  {
    assert m & PermBit(p) != 0 <==> mask & PermBit(p) != 0;
    assert IsSingleBit16(PermBit(p));
  }

  /** Two masks that agree on the six named bits and have no other bits set. */
  lemma BitsDetermineNamed(m: bv16, mask: bv16)
    requires m & !NAMED_PERMISSIONS == 0
    requires m & PermBit(Create) == mask & PermBit(Create)
    requires m & PermBit(File) == mask & PermBit(File)
    requires m & PermBit(Alloc) == mask & PermBit(Alloc)
    requires m & PermBit(KConfig) == mask & PermBit(KConfig)
    requires m & PermBit(TConfig) == mask & PermBit(TConfig)
    requires m & PermBit(TConfigOther) == mask & PermBit(TConfigOther)
    ensures m == mask & NAMED_PERMISSIONS
  {
    assert PermBit(Create) == 1 && PermBit(File) == 2 && PermBit(Alloc) == 4;
    assert PermBit(KConfig) == 8 && PermBit(TConfig) == 16 && PermBit(TConfigOther) == 32;
  }

  /** TPERM_ALL grants every named permission. */
  lemma AllGrantsEverything()
    ensures PermissionsOf(TPERM_ALL) == set p: Permission | p in ALL_PERMISSIONS
    ensures PermissionsOf(TPERM_NONE) == {}
  {
  }

  // ---------------------------------------------------------------------
  // The flags word of thread creation

  const TFLAG_KIND_MASK: bv32 := 0xFFFF
  const THREAD_FUNC: bv16 := 0
  const THREAD_FILE: bv16 := 1
  const TFLAG_PERM_SHIFT: bv32 := 16

  /** Where a new thread's body comes from. */
  datatype ThreadKind = FromFunction | FromFile

  function KindCode(k: ThreadKind): (c: bv16)
    ensures c == THREAD_FUNC || c == THREAD_FILE
    ensures c == THREAD_FUNC <==> k == FromFunction
  {
    match k
    case FromFunction => THREAD_FUNC
    case FromFile => THREAD_FILE
  }

  function DecodeKind(c: bv16): (r: Option<ThreadKind>)
    ensures r.Some? <==> c == THREAD_FUNC || c == THREAD_FILE
    ensures r.Some? ==> KindCode(r.value) == c
  {
    if c == THREAD_FUNC then Some(FromFunction)
    else if c == THREAD_FILE then Some(FromFile)
    else None
  }

  /** The two fields of a flags word. */
  datatype AddThreadFlags = AddThreadFlags(kind: bv16, remove: bv16)

  /** `kind | (remove << TFLAG_PERM_SHIFT)`. */
  function EncodeFlags(f: AddThreadFlags): (w: bv32)
    ensures (w & TFLAG_KIND_MASK) as bv16 == f.kind
    ensures (w >> TFLAG_PERM_SHIFT) as bv16 == f.remove
  {
    f.kind as bv32 | (f.remove as bv32 << TFLAG_PERM_SHIFT)
  }

  /** `flags & TFLAG_KIND_MASK` and `flags >> TFLAG_PERM_SHIFT`. */
  function DecodeFlags(w: bv32): (f: AddThreadFlags)
    ensures EncodeFlags(f) == w
  {
    AddThreadFlags((w & TFLAG_KIND_MASK) as bv16, (w >> TFLAG_PERM_SHIFT) as bv16)
  }

  /** Every kind and removal mask survive the trip through a flags word. */
  lemma DecodeEncodeFlags(f: AddThreadFlags)
    ensures DecodeFlags(EncodeFlags(f)) == f
  {
  }

  /** The flag that removes one permission from a new thread (TPERM_NO_*). */
  function RemovalFlag(p: Permission): (w: bv32)
    ensures w & TFLAG_KIND_MASK == 0
    ensures DecodeFlags(w) == AddThreadFlags(THREAD_FUNC, PermBit(p))
  {
    PermBit(p) as bv32 << TFLAG_PERM_SHIFT
  }

  const TPERM_NO_ALL: bv32 := TPERM_ALL as bv32 << TFLAG_PERM_SHIFT
  const TPERM_NO_CREATE: bv32 := RemovalFlag(Create)
  const TPERM_NO_FILE: bv32 := RemovalFlag(File)
  const TPERM_NO_ALLOC: bv32 := RemovalFlag(Alloc)
  const TPERM_NO_KCONFIG: bv32 := RemovalFlag(KConfig)
  const TPERM_NO_TCONFIG: bv32 := RemovalFlag(TConfig)
  const TPERM_NO_TCONFIG_OTHER: bv32 := RemovalFlag(TConfigOther)

  /** The permissions a flags word tells thread creation to withhold. */
  function RemovedPermissions(w: bv32): (s: set<Permission>)
    ensures forall p :: p in s <==> w & RemovalFlag(p) != 0
  {
    PermissionsOf(DecodeFlags(w).remove)
  }

  /** Whatever kind a flags word names, its upper half withholds exactly the
      permissions of the removal mask. */
  lemma RemovedPermissionsOfEncoding(f: AddThreadFlags)
    ensures RemovedPermissions(EncodeFlags(f)) == PermissionsOf(f.remove)
  {
    DecodeEncodeFlags(f);
  }

  /** OR-ing two removal flags onto a kind gives the encoding of that kind
      with both bits removed: it withholds exactly those two permissions and
      never changes the kind. */
  lemma RemovalFlagsCombine(k: ThreadKind, p: Permission, q: Permission)
    ensures KindCode(k) as bv32 | RemovalFlag(p) | RemovalFlag(q)
            == EncodeFlags(AddThreadFlags(KindCode(k), PermBit(p) | PermBit(q)))
    ensures DecodeFlags(KindCode(k) as bv32 | RemovalFlag(p) | RemovalFlag(q)).kind == KindCode(k)
    ensures RemovedPermissions(KindCode(k) as bv32 | RemovalFlag(p) | RemovalFlag(q)) == {p, q}
  {
    var f := AddThreadFlags(KindCode(k), PermBit(p) | PermBit(q));
    ShiftDistributes(PermBit(p), PermBit(q));
    DecodeEncodeFlags(f);
    forall r ensures (PermBit(p) | PermBit(q)) & PermBit(r) != 0 <==> r == p || r == q {
      PermBitsDisjoint(r, p);
      PermBitsDisjoint(r, q);
    }
  }

  lemma ShiftDistributes(a: bv16, b: bv16)
    ensures (a | b) as bv32 << TFLAG_PERM_SHIFT == (a as bv32 << TFLAG_PERM_SHIFT) | (b as bv32 << TFLAG_PERM_SHIFT)
  {
  }

  /** TPERM_NO_ALL withholds every permission and leaves the kind field alone. */
  lemma NoAllRemovesEverything(k: ThreadKind)
    ensures TPERM_NO_ALL & TFLAG_KIND_MASK == 0
    ensures forall p :: TPERM_NO_ALL & RemovalFlag(p) == RemovalFlag(p)
    ensures DecodeFlags(KindCode(k) as bv32 | TPERM_NO_ALL) == AddThreadFlags(KindCode(k), TPERM_ALL)
  {
    assert TPERM_NO_ALL == EncodeFlags(AddThreadFlags(0, TPERM_ALL));
    assert KindCode(k) as bv32 | TPERM_NO_ALL == EncodeFlags(AddThreadFlags(KindCode(k), TPERM_ALL));
    DecodeEncodeFlags(AddThreadFlags(KindCode(k), TPERM_ALL));
  }

  // ---------------------------------------------------------------------
  // Thread arguments

  /** Four machine words handed to a new thread. */
  datatype ThreadArgs = ThreadArgs(a1: nat, a2: nat, a3: nat, a4: nat)

  /** make_args: each argument cast to a `size_t` of `wordBytes` bytes. */
  function MakeArgs(a: int, b: int, c: int, d: int, wordBytes: nat): (r: ThreadArgs)
    ensures r.a1 == ToSizeT(a, wordBytes) && r.a2 == ToSizeT(b, wordBytes)
    ensures r.a3 == ToSizeT(c, wordBytes) && r.a4 == ToSizeT(d, wordBytes)
    ensures r.a1 < Pow256(wordBytes) && r.a2 < Pow256(wordBytes)
    ensures r.a3 < Pow256(wordBytes) && r.a4 < Pow256(wordBytes)
    ensures 0 <= a < Pow256(wordBytes) ==> r.a1 == a
    ensures a == -1 ==> r.a1 == Pow256(wordBytes) - 1
  {
    ThreadArgs(ToSizeT(a, wordBytes), ToSizeT(b, wordBytes), ToSizeT(c, wordBytes), ToSizeT(d, wordBytes))
  }

  /** Each argument word is congruent to its argument modulo the word's
      range, whatever the argument's sign; MachineWords.ToSizeTUnique shows
      it is the only in-range value that is. */
  lemma MakeArgsResidues(a: int, b: int, c: int, d: int, wordBytes: nat)
    returns (qa: int, qb: int, qc: int, qd: int)
    ensures a == qa * Pow256(wordBytes) + MakeArgs(a, b, c, d, wordBytes).a1
    ensures b == qb * Pow256(wordBytes) + MakeArgs(a, b, c, d, wordBytes).a2
    ensures c == qc * Pow256(wordBytes) + MakeArgs(a, b, c, d, wordBytes).a3
    ensures d == qd * Pow256(wordBytes) + MakeArgs(a, b, c, d, wordBytes).a4
  {
    qa := ToSizeTResidue(a, wordBytes);
    qb := ToSizeTResidue(b, wordBytes);
    qc := ToSizeTResidue(c, wordBytes);
    qd := ToSizeTResidue(d, wordBytes);
  }
}

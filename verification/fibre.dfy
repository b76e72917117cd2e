/** Building the initial context of a user-level fibre.

    make_context clears a context, points its stack pointer just below the
    top of a fresh stack, reserves one pointer-sized slot there holding the
    context's own address, and sets the program counter to the fibre's
    function and the link register to a trampoline that catches a normal
    return. Stack alignment (ALIGN_STACK_PTR) and the trampoline's address
    belong to the platform and are parameters here. Memory is byte-addressed
    and little-endian, as on the ARM targets. */
module Fibre {
  import opened MachineWords

  /** Byte-addressed memory: the bytes the model knows of. Reads need the
      bytes to be present; a store makes the bytes it writes present. */
  type Memory = map<int, Byte>

  /** The platform facts make_context depends on. */
  datatype Platform = Platform(
    pointerSize: nat,       // sizeof(UserContext*), also the width of size_t
    stackAlign: nat,        // ALIGN_STACK_PTR rounds down to a multiple of this
    returnTrampoline: nat   // address of set_context_from_stack_address
  )

  /** One past the largest address a size_t can hold. */
  function AddressLimit(pf: Platform): nat
  {
    Pow256(pf.pointerSize)
  }

  predicate ValidPlatform(pf: Platform)
  {
    && pf.pointerSize > 0
    && pf.stackAlign > 0
    && pf.returnTrampoline < AddressLimit(pf)
  }

  /** AArch64: 8-byte pointers, stacks aligned to 16 bytes. */
  function AArch64(trampoline: nat): Platform
  {
    Platform(8, 16, trampoline)
  }

  /** The AArch64 platform is a valid one for any trampoline address that
      fits a pointer. */
  lemma AArch64Valid(trampoline: nat)
    requires trampoline < Pow256(8)
    ensures ValidPlatform(AArch64(trampoline))
  {
  }

  /** The saved context of a fibre. Only sp, pc and lr matter to
      make_context; every other saved word is in `others`. */
  datatype UserContext = UserContext(sp: nat, pc: nat, lr: nat, others: seq<nat>)

  /** memset of the whole context to zero: same shape, every word zero. */
  function InitContext(ctx: UserContext): (r: UserContext)
    ensures r.sp == 0 && r.pc == 0 && r.lr == 0
    ensures |r.others| == |ctx.others|
    ensures forall i :: 0 <= i < |r.others| ==> r.others[i] == 0
  {
    UserContext(0, 0, 0, seq(|ctx.others|, _ => 0))
  }

  /** ALIGN_STACK_PTR: round down to a multiple of the alignment. */
  function AlignDown(x: nat, align: nat): (r: nat)
    requires align > 0
    ensures r <= x < r + align
    ensures r % align == 0
  {
    var q := x / align;
    assert x == align * q + x % align;
    DivModUnique(align * q, align, q, 0);
    align * q
  }

  /** Rounding down gives the greatest aligned value not above x. */
  lemma AlignDownIsGreatest(x: nat, align: nat, y: nat)
    requires align > 0 && y <= x && y % align == 0
    ensures y <= AlignDown(x, align)
  {
    var r := AlignDown(x, align);
    var qr, qy := r / align, y / align;
    assert r == align * qr + r % align;
    assert y == align * qy + y % align;
    if qy > qr {
      MulMonotone(align, qr + 1, qy);
    }
  }

  /** Rounding an aligned value down leaves it unchanged. */
  lemma AlignDownAligned(x: nat, align: nat)
    requires align > 0 && x % align == 0
    ensures AlignDown(x, align) == x
  {
    AlignDownIsGreatest(x, align, x);
  }

  /** Unsigned size_t subtraction: wraps around below zero. */
  function SubWrap(x: nat, d: nat, limit: nat): (r: nat)
    requires x < limit && d <= limit
    ensures r < limit
    ensures d <= x ==> r == x - d
    ensures x < d ==> r + d == x + limit
  {
    if d <= x then x - d else limit - (d - x)
  }

  /** Where make_context leaves the stack pointer: align, step down one
      pointer, align again. */
  function SlotAddress(stackPtr: nat, pf: Platform): (sp: nat)
    requires ValidPlatform(pf) && stackPtr < AddressLimit(pf)
    ensures sp < AddressLimit(pf)
    ensures sp % pf.stackAlign == 0
    ensures pf.pointerSize <= AlignDown(stackPtr, pf.stackAlign) ==>
              sp + pf.pointerSize <= AlignDown(stackPtr, pf.stackAlign) <= stackPtr
  {
    SizeFitsWord(pf.pointerSize);
    var top := AlignDown(stackPtr, pf.stackAlign);
    AlignDown(SubWrap(top, pf.pointerSize, AddressLimit(pf)), pf.stackAlign)
  }

  /** The slot is the highest aligned place for a pointer below the aligned
      top: no aligned address above it leaves room for the pointer. */
  lemma SlotIsHighest(stackPtr: nat, pf: Platform, y: nat)
    requires ValidPlatform(pf) && stackPtr < AddressLimit(pf)
    requires y % pf.stackAlign == 0
    requires y + pf.pointerSize <= AlignDown(stackPtr, pf.stackAlign)
    ensures y <= SlotAddress(stackPtr, pf)
  {
    SizeFitsWord(pf.pointerSize);
    var top := AlignDown(stackPtr, pf.stackAlign);
    AlignDownIsGreatest(top - pf.pointerSize, pf.stackAlign, y);
  }

  /** Byte i (least significant first) of the little-endian form of v. */
  function ByteOf(v: nat, i: nat): Byte
  {
    if i == 0 then v % 256 else ByteOf(v / 256, i - 1)
  }

  /** The n bytes at addr are all mapped. */
  predicate Mapped(m: Memory, addr: int, n: nat)
  {
    forall a :: addr <= a < addr + n ==> a in m
  }

  /** The n bytes at addr hold the little-endian form of v. */
  predicate Holds(m: Memory, addr: int, n: nat, v: nat)
  {
    forall a :: addr <= a < addr + n ==> a in m && m[a] == ByteOf(v, a - addr)
  }

  /** Reading an n-byte little-endian word. */
  function LoadWord(m: Memory, addr: int, n: nat): nat
    requires Mapped(m, addr, n)
    decreases n
  {
    if n == 0 then 0 else m[addr] + 256 * LoadWord(m, addr + 1, n - 1)
  }

  /** The bytes of v, laid out at addr, read back as v. */
  lemma {:induction false} LoadStoredWord(m: Memory, addr: int, v: nat, n: nat)
    requires v < Pow256(n)
    requires Holds(m, addr, n, v)
    ensures Mapped(m, addr, n)
    ensures LoadWord(m, addr, n) == v
    decreases n
  {
    if n > 0 {
      forall a | addr + 1 <= a < addr + 1 + (n - 1)
        ensures a in m && m[a] == ByteOf(v / 256, a - (addr + 1))
      {
        assert ByteOf(v, a - addr) == ByteOf(v / 256, a - addr - 1);
      }
      assert v / 256 < Pow256(n - 1);
      LoadStoredWord(m, addr + 1, v / 256, n - 1);
      assert m[addr] == ByteOf(v, 0);
    }
  }

  /** `*(word*)addr = v`, byte by byte: the n bytes at addr take the
      little-endian form of v and nothing else changes. */
  method StoreWord(mem: Memory, addr: int, v: nat, n: nat) returns (mem': Memory)
    requires v < Pow256(n)
    ensures forall a :: a in mem' <==> a in mem || addr <= a < addr + n
    ensures forall a :: a in mem && !(addr <= a < addr + n) ==> mem'[a] == mem[a]
    ensures Holds(mem', addr, n, v)
    ensures Mapped(mem', addr, n) && LoadWord(mem', addr, n) == v
  {
    mem' := mem;
    var i := 0;
    while i < n
      invariant 0 <= i <= n
      invariant forall a :: a in mem' <==> a in mem || addr <= a < addr + i
      invariant forall a :: a in mem && !(addr <= a < addr + i) ==> mem'[a] == mem[a]
      invariant Holds(mem', addr, i, v)
    {
      mem' := mem'[addr + i := ByteOf(v, i)];
      i := i + 1;
    }
    LoadStoredWord(mem', addr, v, n);
  }

  /** make_context, statement by statement. `ctx` is the context's previous
      contents, `ctxAddr` its address, `entry` the fibre's entry point and
      `stackPtr` the top of its stack; the result is the new context and the
      memory after the one write to the stack. */
  method MakeContext(ctx: UserContext, ctxAddr: nat, entry: nat, stackPtr: nat,
                     mem: Memory, pf: Platform)
    returns (r: UserContext, mem': Memory)
    requires ValidPlatform(pf)
    requires ctxAddr < AddressLimit(pf) && entry < AddressLimit(pf) && stackPtr < AddressLimit(pf)
    // every saved word other than sp, pc and lr is cleared
    ensures |r.others| == |ctx.others|
    ensures forall i :: 0 <= i < |r.others| ==> r.others[i] == 0
    // entry point and return trampoline
    ensures r.pc == entry
    ensures r.lr == pf.returnTrampoline
    // an aligned size_t stack pointer, determined by the stack top alone
    ensures r.sp == SlotAddress(stackPtr, pf)
    ensures r.sp % pf.stackAlign == 0 && r.sp < AddressLimit(pf)
    // unless the subtraction wrapped, the slot lies below the stack top
    ensures pf.pointerSize <= AlignDown(stackPtr, pf.stackAlign) ==>
              r.sp + pf.pointerSize <= AlignDown(stackPtr, pf.stackAlign) <= stackPtr
    // the slot holds the context's address, and no other byte is written
    ensures Mapped(mem', r.sp, pf.pointerSize) && LoadWord(mem', r.sp, pf.pointerSize) == ctxAddr
    ensures Holds(mem', r.sp, pf.pointerSize, ctxAddr)
    ensures forall a :: a in mem' <==> a in mem || r.sp <= a < r.sp + pf.pointerSize
    ensures forall a :: a in mem && !(r.sp <= a < r.sp + pf.pointerSize) ==> mem'[a] == mem[a]
  {
    SizeFitsWord(pf.pointerSize);
    r := InitContext(ctx);
    r := r.(sp := AlignDown(stackPtr, pf.stackAlign));
    r := r.(pc := entry);
    r := r.(lr := pf.returnTrampoline);
    r := r.(sp := SubWrap(r.sp, pf.pointerSize, AddressLimit(pf)));
    r := r.(sp := AlignDown(r.sp, pf.stackAlign));
    mem' := StoreWord(mem, r.sp, ctxAddr, pf.pointerSize);
  }
}

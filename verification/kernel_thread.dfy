/** The kernel's thread control block, as a record. Only its layout is
    modelled: the operations that create, schedule and destroy threads are
    not part of this model. The state field is a raw machine word rather than
    the enumeration, so that its size is known; storing a state and reading
    it back goes through the numeric codes. */
module KernelThread {
  import opened Wrappers
  import ThreadStates
  import ThreadFlags
  import opened MachineWords

  /** The sentinel value of the two guard words around each thread's stack.
      Writing and checking them is kernel code that is not part of this
      model; the constant documents the record. */
  const STACK_CANARY: bv64 := 0xcafebeefdeadf00d

  /** Capacity of a thread's message queue. */
  const THREAD_MSG_QUEUE_SIZE: nat := 5

  datatype Message = Message(src: int, content: int)

  /** One entry of the thread table. Pointers into the thread's own message
      array are indices here; function pointers are addresses, 0 for none.
      `inCodePage` exists only in builds with code pages, and
      `codeBackingPage` only in builds that also have backing pages; the
      record always carries them, and other builds simply ignore them. */
  datatype Thread = Thread(
    stackPtr: nat,
    state: nat,
    signalHandler: nat,
    pendingSignals: bv32,
    id: int,
    name: seq<Byte>,
    work: nat,
    args: ThreadFlags.ThreadArgs,
    messages: seq<Message>,
    nextMsg: nat,
    endMsgs: nat,
    msgsFull: bool,
    parent: int,
    child: int,
    permissions: bv16,
    errNo: int,
    inCodePage: bool,
    codeBackingPage: nat,
    bottomCanary: bv64,
    stack: seq<Byte>,
    topCanary: bv64
  )

  /** The name and message arrays have the sizes the C declaration gives
      them, and both message cursors point into the message array. */
  predicate WellShaped(t: Thread)
  {
    && |t.name| == ThreadFlags.THREAD_NAME_SIZE
    && |t.messages| == THREAD_MSG_QUEUE_SIZE
    && t.nextMsg < THREAD_MSG_QUEUE_SIZE
    && t.endMsgs < THREAD_MSG_QUEUE_SIZE
  }

  /** The state word, read as a state. */
  function StateOf(t: Thread): ThreadStates.ThreadState
    requires t.state < ThreadStates.STATE_COUNT
  {
    ThreadStates.Decode(t.state).value
  }

  /** Storing a state writes its code into the raw word and nothing else. */
  function WithState(t: Thread, s: ThreadStates.ThreadState): (r: Thread)
    ensures r.state < ThreadStates.STATE_COUNT
    ensures StateOf(r) == s
    ensures r.(state := t.state) == t
  {
    t.(state := ThreadStates.Code(s))
  }

  /** A well-shaped thread with a valid name stores that name so that it
      reads back as the same C string. */
  lemma StoredNameReadsBack(t: Thread, name: seq<Byte>)
    requires ThreadFlags.ValidName(name)
    ensures ThreadFlags.CString(t.(name := ThreadFlags.NameBuffer(name)).name) == name
    ensures WellShaped(t) ==> WellShaped(t.(name := ThreadFlags.NameBuffer(name)))
  {
    ThreadFlags.NameRoundTrip(name);
  }
}

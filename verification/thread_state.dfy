/** The closed thread-state enumeration and its numeric codes.

    The header defines the states once, through ENUM_VALUE(key, value), and
    expands that one list two ways: as a C enumeration (`key=value,`) for C
    code, and as `.set key, value` directives for the assembler. The kernel
    keeps the state as a raw machine word, so a code has to be decoded back. */
module ThreadStates {
  import opened Wrappers

  datatype ThreadState = Init | Running | Suspended | Waiting | Finished | Cancelled

  /** Number of states: the codes are exactly 0 .. STATE_COUNT - 1. */
  const STATE_COUNT: nat := 6

  /** Every state, in code order. */
  const ALL_STATES: seq<ThreadState> := [Init, Running, Suspended, Waiting, Finished, Cancelled]

  /** The numeric code of a state. */
  function Code(s: ThreadState): (n: nat)
    ensures n < STATE_COUNT
    ensures ALL_STATES[n] == s
  {
    match s
    case Init => 0
    case Running => 1
    case Suspended => 2
    case Waiting => 3
    case Finished => 4
    case Cancelled => 5
  }

  /** Reading a raw state word: anything outside 0 .. 5 is not a state. */
  function Decode(n: nat): (r: Option<ThreadState>)
    ensures r.Some? <==> n < STATE_COUNT
    ensures r.Some? ==> Code(r.value) == n
  {
    if n < STATE_COUNT then Some(ALL_STATES[n]) else None
  }

  lemma DecodeEncode(s: ThreadState)
    ensures Decode(Code(s)) == Some(s)
  {
  }

  lemma EncodeDecode(n: nat)
    ensures n < STATE_COUNT ==> Decode(n).Some? && Code(Decode(n).value) == n
    ensures n >= STATE_COUNT ==> Decode(n) == None
  {
  }

  /** Distinct states never share a code. */
  lemma CodeInjective(s: ThreadState, t: ThreadState)
    ensures Code(s) == Code(t) <==> s == t
  {
  }

  /** The name a state is given in the header. */
  function Name(s: ThreadState): string
  {
    match s
    case Init => "init"
    case Running => "running"
    case Suspended => "suspended"
    case Waiting => "waiting"
    case Finished => "finished"
    case Cancelled => "cancelled"
  }

  /** One ENUM_VALUE(key, value) line of the header. */
  datatype EnumValue = EnumValue(key: string, value: nat)

  /** The header's list of ENUM_VALUE lines, in order. */
  function EnumTable(): (t: seq<EnumValue>)
    ensures |t| == STATE_COUNT
    ensures forall i :: 0 <= i < |t| ==> t[i] == EnumValue(Name(ALL_STATES[i]), i)
  {
    [ EnumValue("init", 0), EnumValue("running", 1), EnumValue("suspended", 2),
      EnumValue("waiting", 3), EnumValue("finished", 4), EnumValue("cancelled", 5) ]
  }

  /** `.set key, value`: the assembler binds key to exactly value. */
  datatype AsmDirective = Set(symbol: string, value: nat)

  /** `key=value,` inside `typedef enum{ ... }`. A C enumerator may also omit
      its value, in which case it takes its predecessor's value plus one (the
      first one takes zero); the header never omits it. */
  datatype Enumerator = Enumerator(symbol: string, explicit: Option<nat>)

  /** The assembler expansion of the list. */
  function AsmExpansion(t: seq<EnumValue>): (ds: seq<AsmDirective>)
    ensures |ds| == |t|
    ensures forall i :: 0 <= i < |t| ==> ds[i] == Set(t[i].key, t[i].value)
  {
    if t == [] then [] else [Set(t[0].key, t[0].value)] + AsmExpansion(t[1..])
  }

  /** The C expansion of the list. */
  function CExpansion(t: seq<EnumValue>): (es: seq<Enumerator>)
    ensures |es| == |t|
    ensures forall i :: 0 <= i < |t| ==> es[i] == Enumerator(t[i].key, Some(t[i].value))
  {
    if t == [] then [] else [Enumerator(t[0].key, Some(t[0].value))] + CExpansion(t[1..])
  }

  /** The values the assembler assigns, directive by directive. */
  function AsmValues(ds: seq<AsmDirective>): (vs: seq<nat>)
    ensures |vs| == |ds|
  {
    if ds == [] then [] else [ds[0].value] + AsmValues(ds[1..])
  }

  /** The values a C compiler assigns to the enumerators, given the value
      the next implicit enumerator would take. */
  function CValuesFrom(es: seq<Enumerator>, next: nat): (vs: seq<nat>)
    ensures |vs| == |es|
    // an enumerator with a value takes exactly that value
    ensures forall i :: 0 <= i < |es| && es[i].explicit.Some? ==> vs[i] == es[i].explicit.value
    // one without takes its predecessor's value plus one, the first one `next`
    ensures |es| > 0 && es[0].explicit.None? ==> vs[0] == next
    ensures forall i :: 0 < i < |es| && es[i].explicit.None? ==> vs[i] == vs[i - 1] + 1
  {
    if es == [] then []
    else
      var v := match es[0].explicit case Some(x) => x case None => next;
      [v] + CValuesFrom(es[1..], v + 1)
  }

  function CValues(es: seq<Enumerator>): (vs: seq<nat>)
    ensures |vs| == |es|
  {
    CValuesFrom(es, 0)
  }

  /** Whatever list the header holds, the two expansions bind every name to
      the same number: the value written in its ENUM_VALUE line. */
  lemma {:induction false} ExpansionsAgree(t: seq<EnumValue>, next: nat)
    ensures CValuesFrom(CExpansion(t), next) == AsmValues(AsmExpansion(t))
    ensures forall i :: 0 <= i < |t| ==> AsmValues(AsmExpansion(t))[i] == t[i].value
    decreases |t|
  {
    if t != [] {
      ExpansionsAgree(t[1..], t[0].value + 1);
      assert CExpansion(t)[1..] == CExpansion(t[1..]);
      assert AsmExpansion(t)[1..] == AsmExpansion(t[1..]);
    }
  }

  /** For the header's own list: both the C and the assembler view bind each
      state's name to its code. */
  lemma HeaderBindsCodes()
    ensures CValues(CExpansion(EnumTable())) == AsmValues(AsmExpansion(EnumTable()))
    ensures forall s: ThreadState ::
              AsmExpansion(EnumTable())[Code(s)].symbol == Name(s)
              && AsmValues(AsmExpansion(EnumTable()))[Code(s)] == Code(s)
  {
    ExpansionsAgree(EnumTable(), 0);
  }
}

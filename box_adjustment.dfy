/**
 * The block a virtual call emits when argument 0 is declared `object` (Callvirt.cs lines
 * 116-169): if the receiver is a boxed value type, its slot is moved past the box header so the
 * callee sees the value. On entry the address returned by the vtable resolver is on top of the
 * machine stack and the receiver is at `[esp + thisOffset + 4]`; every path must reach the
 * `_NOT_BOXED_THIS` label with that address still on top, because the label is followed by `pop eax`.
 */
module BoxAdjustment {
  import opened Wrappers
  import opened Instructions

  /** The block in the order Callvirt.cs lines 123-162 emit it: `pop eax` precedes the `jne`, so the
      jump leaves with the address already popped, while only the fall-through pushes it back. */
  function BoxAdjustAsWritten(thisOffset: int, notBoxed: string): seq<Instr>
  {
    [ MovRegSlot(EAX, thisOffset + SlotBytes),
      CmpField(EAX, TypeTagDisplacement, BoxedValueType),
      PopReg(EAX),
      Jne(notBoxed),
      MovRegReg(ECX, EAX),
      MovRegSlot(EAX, thisOffset),
      AddImm(EAX, FieldDataOffset),
      MovSlotReg(thisOffset, EAX),
      PushReg(ECX) ]
  }

  /** The same block with the `jne` ahead of `pop eax` (a pop does not change the flags the
      compare set), so both paths reach the label with the address on top. */
  function BoxAdjust(thisOffset: int, notBoxed: string): seq<Instr>
  {
    [ MovRegSlot(EAX, thisOffset + SlotBytes),
      CmpField(EAX, TypeTagDisplacement, BoxedValueType),
      Jne(notBoxed),
      PopReg(EAX),
      MovRegReg(ECX, EAX),
      MovRegSlot(EAX, thisOffset),
      AddImm(EAX, FieldDataOffset),
      MovSlotReg(thisOffset, EAX),
      PushReg(ECX) ]
  }

  /** Bytes an instruction pushes onto the machine stack (negative when it releases them). */
  function StackEffect(instr: Instr): int
  {
    match instr
    case PushAtEax => SlotBytes
    case PushImm(_) => SlotBytes
    case PushReg(_) => SlotBytes
    case PopReg(_) => -SlotBytes
    case SubImm(r, n) => if r == ESP then n else 0
    case AddImm(r, n) => if r == ESP then -n else 0
    case _ => 0
  }

  /** Bytes a straight run of instructions pushes in all. */
  function NetStackEffect(code: seq<Instr>): int
    decreases |code|
  {
    if code == [] then 0 else StackEffect(code[0]) + NetStackEffect(code[1..])
  }

  /** The machine-stack depths (bytes pushed since the start of `code`, which is entered at
      `depth`) with which control can first reach `Label(target)`: falling through to it, or taking
      a `jne` to it. A `jne` elsewhere may fall through. */
  function ArrivalDepths(code: seq<Instr>, target: string, depth: int): set<int>
    decreases |code|
  {
    if code == [] then {}
    else
      match code[0]
      case Label(name) =>
        if name == target then {depth} else ArrivalDepths(code[1..], target, depth)
      case Jne(to) =>
        (if to == target then {depth} else {}) + ArrivalDepths(code[1..], target, depth)
      case _ => ArrivalDepths(code[1..], target, depth + StackEffect(code[0]))
  }

  /** The `k` of an instruction's `[esp + k]` operand, if it has one. */
  function SlotOperand(instr: Instr): Option<int>
  {
    match instr
    case MovRegSlot(_, k) => Some(k)
    case MovSlotReg(k, _) => Some(k)
    case NullCheck(k, _, _, _, _) => Some(k)
    case _ => None
  }

  /** Every `[esp + k]` operand on the fall-through path of `code`, entered at `depth`, names the
      stack word that was at `[esp + slot]` at entry. */
  predicate AddressesOnly(code: seq<Instr>, depth: int, slot: int)
    decreases |code|
  {
    code == [] ||
    (&& (SlotOperand(code[0]).Some? ==> SlotOperand(code[0]).value - depth == slot)
     && AddressesOnly(code[1..], depth + StackEffect(code[0]), slot))
  }

  /** As written, a receiver that is not a boxed value type reaches `_NOT_BOXED_THIS` one word
      lower than one that is: the `pop eax` after the label then takes an argument word instead
      of the method address. */
  lemma {:induction false} AsWrittenArrivesAtTwoDepths(thisOffset: int, notBoxed: string)
    ensures ArrivalDepths(BoxAdjustAsWritten(thisOffset, notBoxed) + [Label(notBoxed)], notBoxed, 0)
         == {-SlotBytes, 0}
  {
    var c := BoxAdjustAsWritten(thisOffset, notBoxed) + [Label(notBoxed)];
    assert ArrivalDepths(c[9..], notBoxed, 0) == {0};
    assert ArrivalDepths(c[8..], notBoxed, -SlotBytes) == {0};
    assert ArrivalDepths(c[7..], notBoxed, -SlotBytes) == {0};
    assert ArrivalDepths(c[6..], notBoxed, -SlotBytes) == {0};
    assert ArrivalDepths(c[5..], notBoxed, -SlotBytes) == {0};
    assert ArrivalDepths(c[4..], notBoxed, -SlotBytes) == {0};
    assert ArrivalDepths(c[3..], notBoxed, -SlotBytes) == {-SlotBytes, 0};
    assert ArrivalDepths(c[2..], notBoxed, 0) == {-SlotBytes, 0};
    assert ArrivalDepths(c[1..], notBoxed, 0) == {-SlotBytes, 0};
  }

  /** Corrected, both paths reach `_NOT_BOXED_THIS` at the depth they entered with, which is also
      the depth when the block is not emitted at all. */
  lemma {:induction false} BoxAdjustArrivesAtEntryDepth(thisOffset: int, notBoxed: string)
    ensures ArrivalDepths(BoxAdjust(thisOffset, notBoxed) + [Label(notBoxed)], notBoxed, 0) == {0}
    ensures ArrivalDepths([Label(notBoxed)], notBoxed, 0) == {0}
  {
    var c := BoxAdjust(thisOffset, notBoxed) + [Label(notBoxed)];
    assert ArrivalDepths(c[9..], notBoxed, 0) == {0};
    assert ArrivalDepths(c[8..], notBoxed, -SlotBytes) == {0};
    assert ArrivalDepths(c[7..], notBoxed, -SlotBytes) == {0};
    assert ArrivalDepths(c[6..], notBoxed, -SlotBytes) == {0};
    assert ArrivalDepths(c[5..], notBoxed, -SlotBytes) == {0};
    assert ArrivalDepths(c[4..], notBoxed, -SlotBytes) == {0};
    assert ArrivalDepths(c[3..], notBoxed, 0) == {0};
    assert ArrivalDepths(c[2..], notBoxed, 0) == {0};
    assert ArrivalDepths(c[1..], notBoxed, 0) == {0};
  }

  /** The block's one pop is matched by its one push, and all its stack operands, the decimal
      `thisOffset + 4` before the pop and `thisOffset` after it, name the receiver's slot. */
  lemma {:induction false} BoxAdjustAddressesReceiver(thisOffset: int, notBoxed: string)
    ensures NetStackEffect(BoxAdjust(thisOffset, notBoxed)) == 0
    ensures AddressesOnly(BoxAdjust(thisOffset, notBoxed), 0, thisOffset + SlotBytes)
  {
    var c := BoxAdjust(thisOffset, notBoxed);
    var slot := thisOffset + SlotBytes;
    assert NetStackEffect(c[8..]) == SlotBytes;
    assert NetStackEffect(c[7..]) == SlotBytes;
    assert NetStackEffect(c[6..]) == SlotBytes;
    assert NetStackEffect(c[5..]) == SlotBytes;
    assert NetStackEffect(c[4..]) == SlotBytes;
    assert NetStackEffect(c[3..]) == 0;
    assert NetStackEffect(c[2..]) == 0;
    assert NetStackEffect(c[1..]) == 0;
    assert AddressesOnly(c[8..], -SlotBytes, slot);
    assert AddressesOnly(c[7..], -SlotBytes, slot);
    assert AddressesOnly(c[6..], -SlotBytes, slot);
    assert AddressesOnly(c[5..], -SlotBytes, slot);
    assert AddressesOnly(c[4..], -SlotBytes, slot);
    assert AddressesOnly(c[3..], 0, slot);
    assert c[2..][1..] == c[3..];
    assert AddressesOnly(c[2..], 0, slot);
    assert AddressesOnly(c[1..], 0, slot);
  }

  /** Control never walks past the first label it is looking for, so what follows the label
      changes nothing. */
  lemma {:induction false} ArrivalsStopAtTarget(a: seq<Instr>, b: seq<Instr>, target: string, depth: int)
    requires |a| > 0 && a[|a| - 1] == Label(target)
    ensures ArrivalDepths(a + b, target, depth) == ArrivalDepths(a, target, depth)
    decreases |a|
  {
    assert (a + b)[0] == a[0];
    if |a| > 1 {
      assert (a + b)[1..] == a[1..] + b;
      var next := if a[0].Label? || a[0].Jne? then depth else depth + StackEffect(a[0]);
      ArrivalsStopAtTarget(a[1..], b, target, next);
    }
  }

  /** A machine for straight-line code: the three registers and the stack memory, one 32-bit word
      per byte address, of which only what the block touches needs to be present. A `jne` is
      taken to fall through. */
  datatype Machine = Machine(eax: int, ecx: int, esp: int, memory: map<int, int>)

  function ReadReg(m: Machine, r: Reg): int
  {
    match r
    case EAX => m.eax
    case ECX => m.ecx
    case ESP => m.esp
  }

  function WriteReg(m: Machine, r: Reg, v: int): Machine
  {
    match r
    case EAX => m.(eax := v)
    case ECX => m.(ecx := v)
    case ESP => m.(esp := v)
  }

  /** One instruction on the machine; None for what it does not model (memory other than the
      stack, calls, labels) and for a read of a word that is not present. */
  function Step(instr: Instr, m: Machine): Option<Machine>
  {
    match instr
    case MovRegSlot(r, k) =>
      if m.esp + k in m.memory then Some(WriteReg(m, r, m.memory[m.esp + k])) else None
    case MovSlotReg(k, r) => Some(m.(memory := m.memory[m.esp + k := ReadReg(m, r)]))
    case MovRegReg(d, r) => Some(WriteReg(m, d, ReadReg(m, r)))
    case PushReg(r) => Some(m.(esp := m.esp - SlotBytes, memory := m.memory[m.esp - SlotBytes := ReadReg(m, r)]))
    case PushImm(v) => Some(m.(esp := m.esp - SlotBytes, memory := m.memory[m.esp - SlotBytes := v]))
    case PopReg(r) =>
      if m.esp in m.memory then Some(WriteReg(m.(esp := m.esp + SlotBytes), r, m.memory[m.esp])) else None
    case AddImm(r, n) => Some(WriteReg(m, r, ReadReg(m, r) + n))
    case SubImm(r, n) => Some(WriteReg(m, r, ReadReg(m, r) - n))
    case CmpField(_, _, _) => Some(m)
    case TestImm(_, _) => Some(m)
    case Jne(_) => Some(m)
    case _ => None
  }

  function Run(code: seq<Instr>, m: Machine): Option<Machine>
    decreases |code|
  {
    if code == [] then Some(m)
    else match Step(code[0], m)
      case None => None
      case Some(next) => Run(code[1..], next)
  }

  lemma RunCons(x: Instr, rest: seq<Instr>, m: Machine, next: Machine)
    requires Step(x, m) == Some(next)
    ensures Run([x] + rest, m) == Run(rest, next)
  {
    assert ([x] + rest)[0] == x && ([x] + rest)[1..] == rest;
  }

  lemma {:induction false} RunAppend(a: seq<Instr>, b: seq<Instr>, m: Machine)
    requires Run(a, m).Some?
    ensures Run(a + b, m) == Run(b, Run(a, m).value)
    decreases |a|
  {
    if a == [] {
      assert a + b == b;
    } else {
      assert (a + b)[0] == a[0] && (a + b)[1..] == a[1..] + b;
      RunAppend(a[1..], b, Step(a[0], m).value);
    }
  }

  /** The block up to its `jne`: load the receiver's word, at `[esp + thisOffset + 4]` (one slot
      further because the method address is on top), and test its type tag; nothing else changes. */
  lemma BoxAdjustTestsReceiver(thisOffset: int, notBoxed: string, m: Machine)
    requires m.esp + thisOffset + SlotBytes in m.memory
    ensures Run(BoxAdjust(thisOffset, notBoxed)[..3], m) == Some(m.(eax := m.memory[m.esp + thisOffset + SlotBytes]))
  {
    var c := BoxAdjust(thisOffset, notBoxed);
    var loaded := m.(eax := m.memory[m.esp + thisOffset + SlotBytes]);
    assert c[..3] == [c[0]] + ([c[1]] + ([c[2]] + []));
    RunCons(c[2], [], loaded, loaded);
    RunCons(c[1], [c[2]] + [], loaded, loaded);
    RunCons(c[0], [c[1]] + ([c[2]] + []), m, loaded);
  }

  /** `pop eax` and `mov ecx, eax`: the method address moves from the stack into ECX. */
  lemma BoxAdjustSavesAddress(thisOffset: int, notBoxed: string, m: Machine)
    requires m.esp in m.memory
    ensures Run(BoxAdjust(thisOffset, notBoxed)[3..5], m)
         == Some(m.(eax := m.memory[m.esp], ecx := m.memory[m.esp], esp := m.esp + SlotBytes))
  {
    var c := BoxAdjust(thisOffset, notBoxed);
    var popped := m.(eax := m.memory[m.esp], esp := m.esp + SlotBytes);
    assert c[3..5] == [c[3]] + ([c[4]] + []);
    RunCons(c[4], [], popped, popped.(ecx := m.memory[m.esp]));
    RunCons(c[3], [c[4]] + [], m, popped);
  }

  /** The rest of the block: reload the receiver, step past the box header, store it back and
      push the method address held in ECX. */
  lemma BoxAdjustStoresReceiver(thisOffset: int, notBoxed: string, m: Machine)
    requires m.esp + thisOffset in m.memory
    ensures var unboxed := m.memory[m.esp + thisOffset] + FieldDataOffset;
      Run(BoxAdjust(thisOffset, notBoxed)[5..], m)
        == Some(m.(eax := unboxed, esp := m.esp - SlotBytes,
                   memory := m.memory[m.esp + thisOffset := unboxed][m.esp - SlotBytes := m.ecx]))
  {
    var c := BoxAdjust(thisOffset, notBoxed);
    var unboxed := m.memory[m.esp + thisOffset] + FieldDataOffset;
    var m6 := m.(eax := m.memory[m.esp + thisOffset]);
    var m7 := m6.(eax := unboxed);
    var m8 := m7.(memory := m.memory[m.esp + thisOffset := unboxed]);
    assert c[5..] == [c[5]] + ([c[6]] + ([c[7]] + ([c[8]] + [])));
    RunCons(c[8], [], m8, m8.(esp := m.esp - SlotBytes, memory := m8.memory[m.esp - SlotBytes := m.ecx]));
    RunCons(c[7], [c[8]] + [], m7, m8);
    RunCons(c[6], [c[7]] + ([c[8]] + []), m6, m7);
    RunCons(c[5], [c[6]] + ([c[7]] + ([c[8]] + [])), m, m6);
  }

  /** A boxed receiver (the fall-through path of the block, lines 123-162 with the jump not
      taken): the receiver's stack word, one word above the method address on entry, now points
      `FieldDataOffset` bytes further, at the value inside the box; the method address is back on
      top at the same ESP; no other stack word changes. */
  lemma BoxAdjustUnboxesReceiver(thisOffset: int, notBoxed: string, m: Machine)
    requires m.esp in m.memory && m.esp + thisOffset + SlotBytes in m.memory
    ensures var receiver := m.esp + thisOffset + SlotBytes;
      var unboxed := m.memory[receiver] + FieldDataOffset;
      Run(BoxAdjust(thisOffset, notBoxed), m)
        == Some(Machine(unboxed, m.memory[m.esp], m.esp, m.memory[receiver := unboxed][m.esp := m.memory[m.esp]]))
  {
    var c := BoxAdjust(thisOffset, notBoxed);
    var receiver := m.esp + thisOffset + SlotBytes;
    var tested := m.(eax := m.memory[receiver]);
    var saved := tested.(eax := m.memory[m.esp], ecx := m.memory[m.esp], esp := m.esp + SlotBytes);
    BoxAdjustTestsReceiver(thisOffset, notBoxed, m);
    BoxAdjustSavesAddress(thisOffset, notBoxed, tested);
    BoxAdjustStoresReceiver(thisOffset, notBoxed, saved);
    assert saved.esp + thisOffset == receiver;
    var unboxed := m.memory[receiver] + FieldDataOffset;
    RunThree(c[..3], c[3..5], c[5..], m, tested, saved,
             Machine(unboxed, m.memory[m.esp], m.esp, m.memory[receiver := unboxed][m.esp := m.memory[m.esp]]));
    assert c == c[..3] + (c[3..5] + c[5..]);
  }

  lemma RunThree(a: seq<Instr>, b: seq<Instr>, c: seq<Instr>, m0: Machine, m1: Machine, m2: Machine, m3: Machine)
    requires Run(a, m0) == Some(m1) && Run(b, m1) == Some(m2) && Run(c, m2) == Some(m3)
    ensures Run(a + (b + c), m0) == Some(m3)
  {
    RunAppend(b, c, m1);
    RunAppend(a, b + c, m0);
  }
}

/**
 * The `callvirt` handler of the x86 back end (Callvirt.cs). The constructor reads the call's
 * target from the IL, decides whether it can be called directly, queues the methods the call
 * needs and fixes the handler's fields; `DoAssemble` emits the call's code into the assembler,
 * one instruction at a time, and updates the compiler's model of the evaluation stack.
 */
module CallvirtOp {
  import opened Wrappers
  import opened Instructions
  import opened Collaborators
  import opened BoxAdjustment
  import opened Lowering
  import opened ShapeProperties

  /** The target can be called by its own label: it is static, not virtual, or final (line 41). */
  predicate IsStaticallyBound(m: MethodBase)
  {
    m.isStatic || !m.isVirtual || m.isFinal
  }

  /** Where the receiver is before the extra stack space is reserved: argument 0's offset, less
      the extra space when there is any (lines 48-51). */
  function ReceiverOffset(info: MethodInformation): int
    requires |info.arguments| > 0
  {
    if info.extraStackSize > 0 then info.arguments[0].offset - info.extraStackSize
    else info.arguments[0].offset
  }

  /** The receiver offset and the reservation agree: once `sub esp, extra` has run, the receiver
      is at the offset argument 0 declares. */
  lemma ReceiverOffsetAfterReservation(info: MethodInformation)
    requires |info.arguments| > 0
    ensures ReceiverOffset(info) + NetStackEffect(ReserveExtra(info.extraStackSize)) == info.arguments[0].offset
    ensures ReceiverOffset(info) <= info.arguments[0].offset
  {
    var reserve := ReserveExtra(info.extraStackSize);
    if info.extraStackSize > 0 {
      assert reserve[1..] == [];
    }
  }

  /** The receiver offset is not bounded below: when the extra space exceeds argument 0's offset
      it is negative, and the receiver slot is then written `[esp + 0xFFFFFFF4]`-style (see
      `Operands.SlotFormsAgree`). */
  lemma NegativeReceiverOffset()
    ensures exists info: MethodInformation :: |info.arguments| > 0 && ReceiverOffset(info) < 0
  {
    var info := MethodInformation([Argument(4, 0, false)], 4, 12);
    assert ReceiverOffset(info) == -12;
  }

  class Callvirt {
    const methodIdentifier: int
    const normalAddress: Option<string>
    const methodDescription: string
    const thisOffset: int
    const argumentCount: nat
    const returnSize: int
    const labelName: string
    const currentMethodInfo: MethodInformation
    const targetMethodInfo: MethodInformation
    const currentILOffset: int
    const extraStackSpace: int

    /** What the constructor establishes between the fields. */
    predicate Valid()
    {
      && |targetMethodInfo.arguments| > 0
      && argumentCount == |targetMethodInfo.arguments|
      && returnSize == targetMethodInfo.returnSize
      && extraStackSpace == targetMethodInfo.extraStackSize
      && thisOffset == ReceiverOffset(targetMethodInfo)
    }

    /** What the emitted code depends on. */
    function Site(): CallSite
    {
      CallSite(labelName, normalAddress, methodDescription, methodIdentifier, thisOffset,
               currentILOffset, extraStackSpace, targetMethodInfo.arguments)
    }

    /** Lines 23-54 once the operand method is known. The label, the target's method information
        and its identifier come from collaborators outside this model and are parameters. The
        target is queued for compilation when it is called directly, and the vtable resolver is
        queued always. */
    constructor (instructionLabel: string, currentMethod: MethodInformation, position: int,
                 target: MethodBase, targetInfo: MethodInformation, identifier: int, engine: Engine)
      requires |targetInfo.arguments| > 0
      modifies engine
      ensures labelName == instructionLabel && currentMethodInfo == currentMethod
      ensures methodDescription == target.labelName && targetMethodInfo == targetInfo
      ensures normalAddress == if IsStaticallyBound(target) then Some(target.labelName) else None
      ensures methodIdentifier == identifier && currentILOffset == position
      ensures engine.queued == old(engine.queued)
                             + (if IsStaticallyBound(target) then {target} else {})
                             + {GetMethodAddressForType}
      ensures Valid()
    {
      labelName := instructionLabel;
      currentMethodInfo := currentMethod;
      methodDescription := target.labelName;
      targetMethodInfo := targetInfo;
      if IsStaticallyBound(target) {
        engine.QueueMethod(target);
        normalAddress := Some(target.labelName);
      } else {
        normalAddress := None;
      }
      methodIdentifier := identifier;
      engine.QueueMethod(GetMethodAddressForType);
      argumentCount := |targetInfo.arguments|;
      returnSize := targetInfo.returnSize;
      var offset := targetInfo.arguments[0].offset;
      if targetInfo.extraStackSize > 0 {
        offset := offset - targetInfo.extraStackSize;
      }
      thisOffset := offset;
      currentILOffset := position;
      extraStackSpace := targetInfo.extraStackSize;
    }

    /** The constructor with its first check (lines 30-33): without an operand method there is no
        handler and nothing is queued. */
    static method Create(reader: ILReader, instructionLabel: string, currentMethod: MethodInformation,
                         targetInfo: MethodInformation, identifier: int, engine: Engine)
      returns (r: Result<Callvirt, Error>)
      requires reader.operandMethod.Some? ==> |targetInfo.arguments| > 0
      modifies engine
      ensures reader.operandMethod.None? <==> r.Failure?
      ensures r.Failure? ==> r.error == UnableToDetermineMethod && engine.queued == old(engine.queued)
      ensures r.Success? ==>
                var target := reader.operandMethod.value;
                && r.value.Valid()
                && r.value.labelName == instructionLabel && r.value.currentMethodInfo == currentMethod
                && r.value.methodDescription == target.labelName && r.value.targetMethodInfo == targetInfo
                && r.value.normalAddress == (if IsStaticallyBound(target) then Some(target.labelName) else None)
                && r.value.methodIdentifier == identifier && r.value.currentILOffset == reader.position
                && engine.queued == old(engine.queued)
                                    + (if IsStaticallyBound(target) then {target} else {})
                                    + {GetMethodAddressForType}
    {
      if reader.operandMethod.None? {
        return Failure(UnableToDetermineMethod);
      }
      var handler := new Callvirt(instructionLabel, currentMethod, reader.position,
                                  reader.operandMethod.value, targetInfo, identifier, engine);
      return Success(handler);
    }

    /** The cleanup action (lines 57-62): one `add esp, size` per argument of the callee. */
    method EmitCleanup() returns (code: seq<Instr>)
      ensures code == Cleanup(targetMethodInfo.arguments)
    {
      var arguments := targetMethodInfo.arguments;
      code := [];
      for i := 0 to |arguments|
        invariant code == Cleanup(arguments[..i])
      {
        CleanupExtends(arguments, i);
        code := code + [AddImm(ESP, arguments[i].size)];
      }
      assert arguments[..|arguments|] == arguments;
    }

    /** `EmitCompareWithNull` on the receiver slot and the label after it (lines 64-71 and 88-95),
        the same in both shapes. */
    method EmitNullCheck(asm: Assembler, cleanup: seq<Instr>)
      requires cleanup == Cleanup(targetMethodInfo.arguments)
      modifies asm
      ensures asm.emitted == old(asm.emitted) + [NullCheckStep(Site()), Label(AfterNullRefCheck(Site()))]
      ensures asm.stackContents == old(asm.stackContents)
    {
      asm.Emit(NullCheck(thisOffset, labelName, labelName + "_AfterNullRefCheck", cleanup, currentILOffset));
      asm.Emit(Label(labelName + "_AfterNullRefCheck"));
    }

    /** Shape A (lines 63-76). */
    method EmitDirect(asm: Assembler, cleanup: seq<Instr>)
      requires IsDirect(Site()) && cleanup == Cleanup(targetMethodInfo.arguments)
      modifies asm
      ensures asm.emitted == old(asm.emitted) + DirectShape(Site())
      ensures asm.stackContents == old(asm.stackContents)
    {
      EmitNullCheck(asm, cleanup);
      if extraStackSpace > 0 {
        asm.Emit(SubImm(ESP, extraStackSpace));
      }
      asm.Emit(CallLabel(normalAddress.value));
    }

    /** Lines 123-162, in the corrected order: the `jne` comes ahead of `pop eax`. */
    method EmitBoxAdjust(asm: Assembler)
      modifies asm
      ensures asm.emitted == old(asm.emitted) + BoxAdjust(thisOffset, labelName + "_NOT_BOXED_THIS")
      ensures asm.stackContents == old(asm.stackContents)
    {
      asm.Emit(MovRegSlot(EAX, thisOffset + SlotBytes));
      asm.Emit(CmpField(EAX, TypeTagDisplacement, BoxedValueType));
      asm.Emit(Jne(labelName + "_NOT_BOXED_THIS"));
      asm.Emit(PopReg(EAX));
      asm.Emit(MovRegReg(ECX, EAX));
      asm.Emit(MovRegSlot(EAX, thisOffset));
      asm.Emit(AddImm(EAX, FieldDataOffset));
      asm.Emit(MovSlotReg(thisOffset, EAX));
      asm.Emit(PushReg(ECX));
    }

    /** Lines 88-115: the null check, the call to the vtable resolver and its exception check. */
    method EmitResolve(asm: Assembler, cleanup: seq<Instr>)
      requires cleanup == Cleanup(targetMethodInfo.arguments)
      modifies asm
      ensures asm.emitted == old(asm.emitted) + VirtualHead(Site())
      ensures asm.stackContents == old(asm.stackContents)
    {
      EmitNullCheck(asm, cleanup);
      ghost var checked := asm.emitted;
      asm.Emit(MovRegSlot(EAX, thisOffset));
      asm.Emit(PushAtEax);
      asm.Emit(PushImm(methodIdentifier));
      asm.Emit(CallLabel(GetMethodAddressForType.labelName));
      asm.Emit(ExceptionCheck(currentILOffset, labelName + "_AfterAddressCheck", cleanup));
      asm.Emit(Label(labelName + "_AfterAddressCheck"));
      assert asm.emitted == checked + (ResolveStep(Site()) + [ExceptionCheckStep(Site()), Label(AfterAddressCheck(Site()))]);
    }

    /** Lines 170-176: the `_NOT_BOXED_THIS` label, `pop eax`, the reservation and the call
        through EAX. */
    method EmitIndirectCall(asm: Assembler)
      modifies asm
      ensures asm.emitted == old(asm.emitted) + ([Label(NotBoxedThis(Site())), PopReg(EAX)]
                             + (ReserveExtra(extraStackSpace) + [CallReg(EAX), Label(AfterNotBoxedThis(Site()))]))
      ensures asm.stackContents == old(asm.stackContents)
    {
      asm.Emit(Label(labelName + "_NOT_BOXED_THIS"));
      asm.Emit(PopReg(EAX));
      if extraStackSpace > 0 {
        asm.Emit(SubImm(ESP, extraStackSpace));
      }
      asm.Emit(CallReg(EAX));
      asm.Emit(Label(labelName + "__AFTER_NOT_BOXED_THIS"));
    }

    /** Lines 116-176: the box block when argument 0 is declared `object`, then the call through
        the resolved address. */
    method EmitDispatch(asm: Assembler)
      requires Valid()
      modifies asm
      ensures asm.emitted == old(asm.emitted) + VirtualTail(Site())
      ensures asm.stackContents == old(asm.stackContents)
    {
      if targetMethodInfo.arguments[0].declaredObject {
        EmitBoxAdjust(asm);
      }
      EmitIndirectCall(asm);
    }

    /** Shape B (lines 88-176), once metal mode has been ruled out. */
    method EmitVirtual(asm: Assembler, cleanup: seq<Instr>)
      requires Valid() && cleanup == Cleanup(targetMethodInfo.arguments)
      modifies asm
      ensures asm.emitted == old(asm.emitted) + VirtualShape(Site())
      ensures asm.stackContents == old(asm.stackContents)
    {
      EmitResolve(asm, cleanup);
      EmitDispatch(asm);
      VirtualSplit(Site());
    }

    /** Lines 178-181: outside metal mode, leave for the method's exception exit when the
        callee raised one. */
    static method EmitEpilogue(asm: Assembler)
      modifies asm
      ensures asm.emitted == old(asm.emitted) + Epilogue(asm.inMetalMode)
      ensures asm.stackContents == old(asm.stackContents)
    {
      if !asm.inMetalMode {
        asm.Emit(TestImm(ECX, ExceptionFlag));
        asm.Emit(Jne(ExceptionExitLabel));
      }
    }

    /** Lines 56-187: emit the call's code, then replace the callee's arguments on the evaluation
        stack model by its return value. A virtual call in metal mode raises its error before
        anything is emitted; popping an argument off an empty stack model raises after the code
        has been emitted, with the stack model emptied. */
    method DoAssemble(asm: Assembler) returns (outcome: Outcome<Error>)
      requires Valid()
      modifies asm
      ensures var r := Lower(Site(), asm.inMetalMode);
        r.Failure? ==> outcome == Fail(r.error)
                       && asm.emitted == old(asm.emitted) && asm.stackContents == old(asm.stackContents)
      ensures var r := Lower(Site(), asm.inMetalMode);
        r.Success? ==> asm.emitted == old(asm.emitted) + r.value
      ensures var r, depth := Lower(Site(), asm.inMetalMode), |old(asm.stackContents)|;
        r.Success? && argumentCount <= depth ==>
          outcome == Pass && asm.stackContents == old(asm.stackContents)[..depth - argumentCount] + [returnSize]
      ensures var r := Lower(Site(), asm.inMetalMode);
        r.Success? && argumentCount > |old(asm.stackContents)| ==>
          outcome == Fail(EvaluationStackEmpty) && asm.stackContents == []
    {
      var cleanup := EmitCleanup();
      if !IsNullOrEmpty(normalAddress) {
        EmitDirect(asm, cleanup);
      } else {
        if asm.inMetalMode {
          return Fail(VirtualInMetalMode(methodDescription));
        }
        EmitVirtual(asm, cleanup);
      }
      EmitEpilogue(asm);
      assert asm.emitted == old(asm.emitted) + Lower(Site(), asm.inMetalMode).value;
      ghost var stack := asm.stackContents;
      var i := 0;
      while i < argumentCount
        invariant 0 <= i <= argumentCount && i <= |stack|
        invariant asm.stackContents == stack[..|stack| - i]
        invariant asm.emitted == old(asm.emitted) + Lower(Site(), asm.inMetalMode).value
      {
        if |asm.stackContents| == 0 {
          return Fail(EvaluationStackEmpty);
        }
        var _ := asm.Pop();
        i := i + 1;
      }
      asm.Push(returnSize);
      return Pass;
    }
  }

  lemma CleanupExtends(arguments: seq<Argument>, i: nat)
    requires i < |arguments|
    ensures Cleanup(arguments[..i + 1]) == Cleanup(arguments[..i]) + [AddImm(ESP, arguments[i].size)]
  {
    var c := Cleanup(arguments[..i + 1]);
    assert c == Cleanup(arguments[..i]) + [AddImm(ESP, arguments[i].size)];
  }
}

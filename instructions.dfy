/**
 * The x86 instructions the `callvirt` handler emits, as values. Operand text is not kept:
 * a stack slot `[esp + k]` is the integer `k` (its two spellings are in module Operands).
 */
module Instructions {

  datatype Reg = EAX | ECX | ESP

  datatype Instr =
    | Label(name: string)
      /** `EmitCompareWithNull`: compare the stack slot `[esp + slot]` with null; when it is null, run
          `cleanup` and raise the null-reference exception for `ilOffset`, else continue at `okLabel`.
          Its body is not part of this model: this marker stands for all of it. */
    | NullCheck(slot: int, stem: string, okLabel: string, cleanup: seq<Instr>, ilOffset: int)
      /** `Call.EmitExceptionLogic`: when an exception is propagating, run `cleanup` and leave the
          method, else continue at `okLabel`. Its body is not part of this model either. */
    | ExceptionCheck(ilOffset: int, okLabel: string, cleanup: seq<Instr>)
    | MovRegSlot(dst: Reg, slot: int)        // mov dst, [esp + slot]
    | MovSlotReg(slot: int, src: Reg)        // mov [esp + slot], src
    | MovRegReg(dst: Reg, src: Reg)          // mov dst, src
    | PushAtEax                              // push dword [eax]
    | PushImm(value: int)                    // push <immediate>
    | PushReg(src: Reg)                      // push src
    | PopReg(dst: Reg)                       // pop dst
    | AddImm(dst: Reg, value: int)           // add dst, value
    | SubImm(dst: Reg, value: int)           // sub dst, value
    | CmpField(base: Reg, disp: int, value: int)  // cmp dword [base + disp], value
    | TestImm(reg: Reg, mask: int)           // test reg, mask
    | Jne(target: string)                    // jne target
    | CallLabel(target: string)              // call target
    | CallReg(callee: Reg)                   // call reg

  /** `MethodFooterOp.EndOfMethodLabelNameException`: where a caller goes when its callee signals
      a propagating exception. The actual name belongs to the method footer handler. */
  const ExceptionExitLabel: string := ".END__OF__METHOD_EXCEPTION"

  /** The bit of ECX a callee sets while an exception propagates (`test ecx, 2`). */
  const ExceptionFlag: int := 2

  /** Byte offset of the instance-type tag in an object header (`dword [eax + 4]`). */
  const TypeTagDisplacement: int := 4

  /** `InstanceTypeEnum.BoxedValueType` and `ObjectImpl.FieldDataOffset`: values of the runtime's
      object layout, fixed here; no property below depends on which values they are. */
  const BoxedValueType: int := 2
  const FieldDataOffset: int := 12

  /** Bytes one push or pop moves the stack pointer by. */
  const SlotBytes: int := 4
}

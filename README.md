# Callvirt lowering in Dafny

This project models the `callvirt` handler of the IL2CPU ahead-of-time compiler's x86 back end,
`source/Indy.IL2CPU.IL.X86/Callvirt.cs`. The handler turns one `callvirt` IL instruction into x86
code.

Its constructor reads the call's target method from the IL. It then decides whether the target
can be called by its own label: it can when the target is static, not virtual, or final. It queues
the methods the call needs and computes the receiver's stack offset, the argument count, the
return size and the extra stack space.

`DoAssemble` emits one of two shapes, and each ends with the exception epilogue:

- **Shape A, a direct call:** a null check on the receiver, then the reservation of the extra
  stack space, then `call <target>`.
- **Shape B, dispatch through the vtable:**
  1. a null check on the receiver;
  2. a call to `VTablesImpl.GetMethodAddressForType` with the receiver's type and the method
     identifier;
  3. an exception check;
  4. when argument 0 is declared `object`, a block that moves a boxed receiver past its box
     header;
  5. `pop eax`, the reservation and `call eax`.

Afterwards `DoAssemble` replaces the callee's arguments on the compiler's evaluation-stack model
with one entry of the return size.

Modules:

- `Wrappers`: `Option`, `Result` and `Outcome`.
- `Instructions`: the emitted instructions as a datatype, and the runtime constants.
- `Operands`: the two textual spellings of the receiver slot, and the method-identifier operand,
  with their round trips.
- `Collaborators`: the method descriptors, the compilation engine's work list (class `Engine`),
  and the assembler's instruction stream and evaluation-stack model (class `Assembler`).
- `BoxAdjustment`: the box block, both as written and corrected. It also holds a machine-stack
  depth analysis and a small register machine that runs the block.
- `Lowering`: the emitted code of one call site as a function, `Lower`, and a selection function
  for stating order.
- `ShapeProperties` and `SiteProperties`: what is proved about `Lower`.
- `CallvirtOp`: class `Callvirt`. Its `const` fields are the source's `readonly` fields. It has the
  constructor, the `Create` factory for the null-operand error, and `DoAssemble`. `DoAssemble`
  emits instruction by instruction and is proved to append exactly `Lower(Site(), metal)`.

## Model

| member | source | states |
|---|---|---|
| CallvirtOp.Callvirt.constructor | source/Indy.IL2CPU.IL.X86/Callvirt.cs:23-54 | The direct address is set (to the target's label) exactly when the target is static, non-virtual or final. Only then is the target queued. The vtable resolver is queued in every case. Every field is fixed, and the receiver offset, argument count, return size and extra space satisfy `Valid()`. |
| CallvirtOp.Callvirt.Create | source/Indy.IL2CPU.IL.X86/Callvirt.cs:23-54 | Without an operand method the result is `UnableToDetermineMethod` and nothing is queued. Otherwise the handler is built exactly as the constructor states: every field comes from the inputs, the direct address is the target's label iff the target is statically bound, and the queue gains the target (only then) and the vtable resolver. |
| CallvirtOp.ReceiverOffsetAfterReservation | source/Indy.IL2CPU.IL.X86/Callvirt.cs:48-51 | The receiver offset plus what the reservation pushes equals argument 0's offset. After `sub esp, extra` the receiver is where argument 0 says it is, and the offset never exceeds argument 0's. |
| CallvirtOp.NegativeReceiverOffset | source/Indy.IL2CPU.IL.X86/Callvirt.cs:48-51 | The subtraction is unchecked: some method information gives a negative receiver offset. |
| CallvirtOp.Callvirt.EmitCleanup | source/Indy.IL2CPU.IL.X86/Callvirt.cs:57-62 | The cleanup loop produces `Cleanup(arguments)`: one `add esp, size` per callee argument, in order. |
| Lowering.Cleanup | source/Indy.IL2CPU.IL.X86/Callvirt.cs:57-62 | The cleanup has one instruction per argument, and instruction i is `add esp, arguments[i].size`. |
| Lowering.CleanupReleasesArguments | source/Indy.IL2CPU.IL.X86/Callvirt.cs:57-62 | The cleanup releases exactly the bytes the callee's arguments occupy. |
| CallvirtOp.Callvirt.EmitNullCheck | source/Indy.IL2CPU.IL.X86/Callvirt.cs:64-71 | Appends the null check on the receiver slot with the cleanup, then its continuation label. The stack model is unchanged. |
| CallvirtOp.Callvirt.EmitDirect | source/Indy.IL2CPU.IL.X86/Callvirt.cs:63-76 | Appends exactly shape A. |
| CallvirtOp.Callvirt.EmitResolve | source/Indy.IL2CPU.IL.X86/Callvirt.cs:88-115 | Appends the null check, the resolver call with its two arguments, and the exception check with its label. |
| CallvirtOp.Callvirt.EmitBoxAdjust | source/Indy.IL2CPU.IL.X86/Callvirt.cs:123-162 | Appends the box block, with `jne` ahead of `pop eax`. |
| CallvirtOp.Callvirt.EmitIndirectCall | source/Indy.IL2CPU.IL.X86/Callvirt.cs:170-176 | Appends the `_NOT_BOXED_THIS` label, `pop eax`, the reservation when positive, `call eax` and the closing label. |
| CallvirtOp.Callvirt.EmitDispatch | source/Indy.IL2CPU.IL.X86/Callvirt.cs:116-176 | Appends the box block exactly when argument 0 is declared `object`, then the indirect call. |
| CallvirtOp.Callvirt.EmitVirtual | source/Indy.IL2CPU.IL.X86/Callvirt.cs:88-176 | Appends exactly shape B. |
| CallvirtOp.Callvirt.EmitEpilogue | source/Indy.IL2CPU.IL.X86/Callvirt.cs:178-181 | Appends `test ecx, 2; jne <exception exit>` outside metal mode, and nothing in metal mode. |
| CallvirtOp.Callvirt.DoAssemble | source/Indy.IL2CPU.IL.X86/Callvirt.cs:56-187 | See below. |
| Lowering.Lower | source/Indy.IL2CPU.IL.X86/Callvirt.cs:63-181 | Lowering fails exactly for a call through the vtable in metal mode, and the error names the called method. |
| Collaborators.Assembler.Pop | source/Indy.IL2CPU.IL.X86/Callvirt.cs:184 | Removes and returns the top entry of a non-empty stack model. The instruction stream is unchanged. |
| Collaborators.Assembler.Push | source/Indy.IL2CPU.IL.X86/Callvirt.cs:186 | Adds one entry of the given size on top. |
| ShapeProperties.DirectShapeSteps | source/Indy.IL2CPU.IL.X86/Callvirt.cs:63-76 | With a direct address, the checks and calls of the code are exactly the null check then `call <address>`. There is one call, and no resolver call or exception check. |
| ShapeProperties.VirtualShapeSteps | source/Indy.IL2CPU.IL.X86/Callvirt.cs:88-176 | Without a direct address (and outside metal mode), the checks and calls are, in order, the null check, the resolver call, the exception check and `call eax`. There are no others. |
| ShapeProperties.VirtualShapeLabels | source/Indy.IL2CPU.IL.X86/Callvirt.cs:88-176 | Shape B defines exactly four labels, in order: `_AfterNullRefCheck`, `_AfterAddressCheck`, `_NOT_BOXED_THIS`, `__AFTER_NOT_BOXED_THIS`. |
| SiteProperties.LabelsDistinct | source/Indy.IL2CPU.IL.X86/Callvirt.cs:71-176 | The four labels of a call site are pairwise distinct. |
| SiteProperties.ExtraSpaceBeforeFinalCall | source/Indy.IL2CPU.IL.X86/Callvirt.cs:72-175 | In both shapes the code's only stack reservations are `sub esp, extra` once when extra > 0 and none otherwise. The final call sits right after the null check and its label (and the reservation) in shape A, and second to last in shape B; the instruction right before it is that reservation iff extra > 0. |
| SiteProperties.BoxTestIffObjectReceiver | source/Indy.IL2CPU.IL.X86/Callvirt.cs:116-125 | The receiver's type tag is compared with `BoxedValueType` iff the call goes through the vtable and argument 0 is declared `object`. It is compared exactly once. |
| SiteProperties.BoxBlockMeetsAtNotBoxed | source/Indy.IL2CPU.IL.X86/Callvirt.cs:115-171 | See below. |
| SiteProperties.CleanupOnEveryExit | source/Indy.IL2CPU.IL.X86/Callvirt.cs:57-114 | Every null check in the code is the one on the receiver slot at this IL offset, and every exception check is this site's. Both carry the callee's cleanup, which releases exactly the argument bytes. |
| SiteProperties.EpilogueIffNotMetal | source/Indy.IL2CPU.IL.X86/Callvirt.cs:178-181 | The code ends with `test ecx, 2; jne <exception exit>` iff the assembler is not in metal mode. |
| BoxAdjustment.AsWrittenArrivesAtTwoDepths | source/Indy.IL2CPU.IL.X86/Callvirt.cs:123-171 | As written, control first reaches `_NOT_BOXED_THIS` at two machine-stack depths, 0 and −4: the jump leaves after `pop eax`, and only the fall-through pushes the address back. |
| BoxAdjustment.BoxAdjustArrivesAtEntryDepth | source/Indy.IL2CPU.IL.X86/Callvirt.cs:123-171 | Corrected, every path reaches `_NOT_BOXED_THIS` at the entry depth, as does the path that skips the block. |
| BoxAdjustment.BoxAdjustAddressesReceiver | source/Indy.IL2CPU.IL.X86/Callvirt.cs:123-162 | The corrected block leaves the stack depth unchanged. Every `[esp + k]` it uses (`thisOffset + 4` before the pop, `thisOffset` after it) names the receiver's word. |
| BoxAdjustment.BoxAdjustTestsReceiver | source/Indy.IL2CPU.IL.X86/Callvirt.cs:123-134 | In the corrected block, where the `jne` comes before `pop eax`, the instructions up to the `jne` load the receiver's word, at `[esp + thisOffset + 4]` (one slot further because the method address is on top), into EAX and change nothing else. |
| BoxAdjustment.BoxAdjustSavesAddress | source/Indy.IL2CPU.IL.X86/Callvirt.cs:126-136 | `pop eax; mov ecx, eax` moves the method address from the top of the stack into ECX and EAX, and raises ESP by one word. |
| BoxAdjustment.BoxAdjustStoresReceiver | source/Indy.IL2CPU.IL.X86/Callvirt.cs:144-162 | The block's tail adds `FieldDataOffset` to the receiver word, stores it back in place, and pushes ECX. |
| BoxAdjustment.BoxAdjustUnboxesReceiver | source/Indy.IL2CPU.IL.X86/Callvirt.cs:123-162 | On the fall-through path, the receiver word ends up `FieldDataOffset` bytes further, at the value inside the box. ESP is as on entry, the method address is back on top, and ECX holds it. |
| Operands.DigitsRoundTrip | source/Indy.IL2CPU.IL.X86/Callvirt.cs:97 | Reading back the digits a non-negative number is printed with gives the number, in either radix. |
| Operands.HexSlotDisplacement | source/Indy.IL2CPU.IL.X86/Callvirt.cs:66 | The `"[esp + 0x" + ToString("X") + "]"` spelling reads back as the offset's 32-bit pattern. |
| Operands.FormatDRoundTrip | source/Indy.IL2CPU.IL.X86/Callvirt.cs:144 | A decimal rendering of any offset, sign included, reads back as that offset and never starts with `0x`. |
| Operands.DecSlotDisplacement | source/Indy.IL2CPU.IL.X86/Callvirt.cs:154 | The `"[esp + " + offset + "]"` spelling reads back as the offset itself. |
| Operands.SlotFormsAgree | source/Indy.IL2CPU.IL.X86/Callvirt.cs:144-154 | Both spellings of the receiver slot parse, and they name the same address modulo 2^32. |
| Operands.MethodIdRoundTrip | source/Indy.IL2CPU.IL.X86/Callvirt.cs:99 | The operand `"0" + id.ToString("X") + "h"` reads back as the identifier's 32-bit pattern, and as the identifier itself when it is a non-negative 32-bit value. |

`CallvirtOp.Callvirt.DoAssemble` states:

- When lowering fails (a virtual call in metal mode), it returns that error and changes neither
  the instruction stream nor the stack model.
- Otherwise it appends exactly `Lower(Site(), metal)`.
- If the stack model holds at least `argumentCount` entries, the top `argumentCount` entries are
  replaced by one entry of `returnSize`, even when that size is 0, and the entries below are
  unchanged.
- If it holds fewer, the result is `EvaluationStackEmpty` and the stack model is empty.

`SiteProperties.BoxBlockMeetsAtNotBoxed` states that after the `_AfterAddressCheck` label, shape B
holds one of two things:

- the corrected box block followed by `_NOT_BOXED_THIS`, when argument 0 is declared `object`;
- `_NOT_BOXED_THIS` directly, otherwise.

Either way control first reaches that label at the depth it had after the exception check, so the
`pop eax` there takes the resolved method address.

## Left out

- The bodies of `EmitCompareWithNull` and `Call.EmitExceptionLogic` are not part of this model.
  Each is one marker instruction (`NullCheck`, `ExceptionCheck`) carrying its slot or IL offset,
  its continuation label and its cleanup code. Neither marker carries the current method's
  information, which the source passes to both (lines 65, 89 and 111), and `ExceptionCheck` does not
  carry `EmitExceptionLogic`'s `true` argument.
- The base constructor `Op(aReader, aMethodInfo)` is not part of this model.
- The `Comment` instruction (line 182) is left out; it has no effect on the code.
- Instruction encoding and operand text are left out. Instructions are datatype values appended
  to a sequence. Only the receiver-slot and method-identifier operands are modelled as text
  (module `Operands`), because the source spells the same slot two ways.
- The collaborators are parameters:
  - `GetInstructionLabel` gives the instruction label.
  - `CPU.Label.GenerateLabelName` gives `MethodBase.labelName`.
  - `Engine.GetMethodInfo` gives the target's method information, and its debug-mode argument is
    not modelled.
  - `Engine.GetMethodIdentifier` gives the identifier.
  - Reflection's `IsStatic`, `IsVirtual` and `IsFinal`, and the `typeof(object)` comparison, are
    booleans.
  - `Engine.QueueMethod` is insertion into a set.
- Runtime layout values are fixed constants, and no property depends on their values:
  `InstanceTypeEnum.BoxedValueType`, `ObjectImpl.FieldDataOffset`, and the name of the method
  footer's exception-exit label.
- CallvirtOp.Callvirt.constructor requires argument 0 to exist. The source reads `Arguments[0]`
  unchecked (lines 48 and 116), and a `callvirt` target always has a receiver.
- Whether a negative receiver offset can arise from real method information is not decided.
  `CallvirtOp.NegativeReceiverOffset` only shows that the arithmetic allows it.
- Integers are unbounded:
  - The receiver-offset subtraction (line 50) and the register machine's `add` do not wrap at
    2^32.
  - `ToString("X")` is modelled on the 32-bit pattern (`% 2^32`).
  - Decimal `ToString()` is culture-invariant digits with a leading `-` for negatives.
- The machine-stack depth analysis and the register machine do not model the stack effect of
  `call`, of the resolver, or of the two marker instructions; they run only over the box block.
- The register machine keeps one 32-bit word per byte address (no overlapping dwords) and no
  flags, and takes `jne` to fall through. The jump path is covered by the depth analysis instead.
- CallvirtOp.Callvirt.DoAssemble models `Stack.Pop` on an empty stack model as the error
  `EvaluationStackEmpty`, returned after the code has been emitted. The .NET exception type is not
  modelled.

## Findings

| source | as written | input that shows it | evidently intended | confidence | as-written member | corrected member |
|---|---|---|---|---|---|---|
| source/Indy.IL2CPU.IL.X86/Callvirt.cs:126-134 | `pop eax` (line 126) comes before `jne _NOT_BOXED_THIS` (line 134). The method address is pushed back (line 162) only on the fall-through path. | A virtual call whose argument 0 is declared `object` (e.g. `Object.ToString` through the vtable) on a receiver that is not a boxed value type. The jump is taken with the address already popped, so `pop eax` at line 171 takes an argument word, and `call eax` jumps to it. | Both paths reach `_NOT_BOXED_THIS` with the method address on top: `jne` ahead of `pop eax`, since a pop leaves the flags alone. | medium, not executed | BoxAdjustment.AsWrittenArrivesAtTwoDepths | BoxAdjustment.BoxAdjustArrivesAtEntryDepth |

The model reads the resolver's result as left on top of the machine stack when the box block
starts. The stack comment at lines 117-121 says so ("$esp method to call"), as do the `pop eax`
at line 126 and the unconditional `pop eax` at line 171, which would otherwise take an argument
word on every path. The earlier comment at lines 102-108 says instead that EAX holds the method to
call; the model does not follow it, because the code after it pops the address from the stack.
The depth mismatch holds under either reading. `AsWrittenArrivesAtTwoDepths` measures depth
relative to the block's entry: the jump path has run one `pop` and no `push`, and the fall-through
path has run one of each. Whatever sits on top at entry, the two paths reach line 170 one word
apart.

`BoxAdjustment.BoxAdjustAsWritten` is the block in the source's order, and
`BoxAdjustment.BoxAdjust` is the corrected block. `Lower` and `DoAssemble` use the corrected
block.

/**
 * What the handler consumes from the rest of the compiler: the method descriptors produced by
 * reflection and by `Engine.GetMethodInfo`, the work list of `Engine.QueueMethod`, and the
 * assembler's instruction stream and evaluation-stack model (`Assembler.StackContents`).
 */
module Collaborators {
  import opened Wrappers
  import opened Instructions

  /** One argument of a method: its size and stack offset in bytes, and whether its declared
      type is `object` (`ArgumentType == typeof(object)`). */
  datatype Argument = Argument(size: int, offset: int, declaredObject: bool)

  /** `MethodInformation` as far as the handler reads it. */
  datatype MethodInformation = MethodInformation(arguments: seq<Argument>, returnSize: int, extraStackSize: int)

  /** A `MethodBase` from reflection, with the label `CPU.Label.GenerateLabelName` gives it. */
  datatype MethodBase = MethodBase(labelName: string, isStatic: bool, isVirtual: bool, isFinal: bool)

  /** The instruction reader at a `callvirt`: its IL position and its operand (None for null). */
  datatype ILReader = ILReader(position: int, operandMethod: Option<MethodBase>)

  /** `VTablesImplRefs.GetMethodAddressForTypeRef`: the runtime routine that maps a type and a
      method identifier to the address to call. */
  const GetMethodAddressForType: MethodBase :=
    MethodBase("VTablesImpl_GetMethodAddressForType", true, false, false)

  /** The compilation engine's work list. Queueing is insertion into a set, so asking twice for the
      same method leaves one entry. */
  class Engine {
    var queued: set<MethodBase>

    constructor ()
      ensures queued == {}
    {
      queued := {};
    }

    method QueueMethod(m: MethodBase)
      modifies this
      ensures queued == old(queued) + {m}
    {
      queued := queued + {m};
    }
  }

  /** The assembler: the instruction stream that every `new CPUx86.*` appends to, the compiler's
      model of the evaluation stack (one size per slot, top last), and whether it targets the
      metal profile, which has no runtime type information. */
  class Assembler {
    var emitted: seq<Instr>
    var stackContents: seq<int>
    const inMetalMode: bool

    constructor (metal: bool, stack: seq<int>)
      ensures emitted == [] && stackContents == stack && inMetalMode == metal
    {
      emitted := [];
      stackContents := stack;
      inMetalMode := metal;
    }

    method Emit(instr: Instr)
      modifies this
      ensures emitted == old(emitted) + [instr]
      ensures stackContents == old(stackContents)
    {
      emitted := emitted + [instr];
    }

    /** `StackContents.Pop()`; the evaluation-stack model must not be empty. */
    method Pop() returns (size: int)
      requires |stackContents| > 0
      modifies this
      ensures stackContents == old(stackContents)[..|old(stackContents)| - 1]
      ensures size == old(stackContents)[|old(stackContents)| - 1]
      ensures emitted == old(emitted)
    {
      size := stackContents[|stackContents| - 1];
      stackContents := stackContents[..|stackContents| - 1];
    }

    /** `StackContents.Push(new StackContent(size))`. */
    method Push(size: int)
      modifies this
      ensures stackContents == old(stackContents) + [size]
      ensures emitted == old(emitted)
    {
      stackContents := stackContents + [size];
    }
  }
}

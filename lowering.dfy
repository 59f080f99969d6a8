/**
 * The code one `callvirt` call site lowers to, as functions of the handler's fields, and what is
 * proved about it: the two shapes, the order of the virtual shape's steps, where the extra stack
 * space is reserved, the box adjustment, the cleanup on every early exit, and the epilogue.
 * Class `Callvirt` in module CallvirtOp emits this code one instruction at a time.
 */
module Lowering {
  import opened Wrappers
  import opened Instructions
  import opened Collaborators
  import opened BoxAdjustment

  /** The handler's errors, all fatal in the source. */
  datatype Error =
    | UnableToDetermineMethod                  // the operand method is null
    | VirtualInMetalMode(calledMethod: string) // virtual dispatch needs runtime type information
    | EvaluationStackEmpty                     // `StackContents.Pop()` on an empty stack

  /** What the emitted code of one call site depends on: the handler's label, the direct-call
      address if any, the callee's description and identifier, the receiver offset, the IL offset,
      the extra stack space and the callee's arguments. */
  datatype CallSite = CallSite(
    labelName: string,
    normalAddress: Option<string>,
    methodDescription: string,
    methodIdentifier: int,
    thisOffset: int,
    ilOffset: int,
    extraStackSpace: int,
    arguments: seq<Argument>)

  /** `String.IsNullOrEmpty`. */
  predicate IsNullOrEmpty(s: Option<string>)
  {
    s.None? || s.value == ""
  }

  /** The call site calls its target directly (shape A) rather than through the vtable (shape B). */
  predicate IsDirect(site: CallSite)
  {
    !IsNullOrEmpty(site.normalAddress)
  }

  /** What the cleanup action emits: one `add esp, size` per argument of the callee, in order. */
  function Cleanup(arguments: seq<Argument>): (code: seq<Instr>)
    ensures |code| == |arguments|
    ensures forall i :: 0 <= i < |arguments| ==> code[i] == AddImm(ESP, arguments[i].size)
    decreases |arguments|
  {
    if arguments == [] then [] else [AddImm(ESP, arguments[0].size)] + Cleanup(arguments[1..])
  }

  /** Bytes the arguments occupy on the machine stack. */
  function ArgumentBytes(arguments: seq<Argument>): int
    decreases |arguments|
  {
    if arguments == [] then 0 else arguments[0].size + ArgumentBytes(arguments[1..])
  }

  /** The cleanup releases exactly the bytes the arguments occupy. */
  lemma {:induction false} CleanupReleasesArguments(arguments: seq<Argument>)
    ensures NetStackEffect(Cleanup(arguments)) == -ArgumentBytes(arguments)
    decreases |arguments|
  {
    if arguments != [] {
      CleanupReleasesArguments(arguments[1..]);
      assert Cleanup(arguments)[1..] == Cleanup(arguments[1..]);
    }
  }

  function AfterNullRefCheck(site: CallSite): string { site.labelName + "_AfterNullRefCheck" }
  function AfterAddressCheck(site: CallSite): string { site.labelName + "_AfterAddressCheck" }
  function NotBoxedThis(site: CallSite): string { site.labelName + "_NOT_BOXED_THIS" }
  function AfterNotBoxedThis(site: CallSite): string { site.labelName + "__AFTER_NOT_BOXED_THIS" }

  /** The null check on the receiver slot that both shapes start with. */
  function NullCheckStep(site: CallSite): Instr
  {
    NullCheck(site.thisOffset, site.labelName, AfterNullRefCheck(site), Cleanup(site.arguments), site.ilOffset)
  }

  /** The check for a propagating exception after the vtable resolver returns. */
  function ExceptionCheckStep(site: CallSite): Instr
  {
    ExceptionCheck(site.ilOffset, AfterAddressCheck(site), Cleanup(site.arguments))
  }

  /** `sub esp, extra`, emitted only when the callee needs extra stack space. */
  function ReserveExtra(extra: int): seq<Instr>
  {
    if extra > 0 then [SubImm(ESP, extra)] else []
  }

  /** Shape A (Callvirt.cs lines 63-76): null check, then a direct call. */
  function DirectShape(site: CallSite): seq<Instr>
    requires IsDirect(site)
  {
    [NullCheckStep(site), Label(AfterNullRefCheck(site))]
    + (ReserveExtra(site.extraStackSpace)
    + [CallLabel(site.normalAddress.value)])
  }

  /** Load the receiver, push its type (`[eax]`) and the method identifier, call the resolver. */
  function ResolveStep(site: CallSite): seq<Instr>
  {
    [MovRegSlot(EAX, site.thisOffset), PushAtEax, PushImm(site.methodIdentifier),
     CallLabel(GetMethodAddressForType.labelName)]
  }

  /** The box block, emitted only when argument 0 is declared `object` (line 116). */
  function BoxStep(site: CallSite): seq<Instr>
    requires |site.arguments| > 0
  {
    if site.arguments[0].declaredObject then BoxAdjust(site.thisOffset, NotBoxedThis(site)) else []
  }

  /** Shape B (Callvirt.cs lines 88-176), with the box block in its corrected order. */
  function VirtualShape(site: CallSite): seq<Instr>
    requires |site.arguments| > 0
  {
    [NullCheckStep(site), Label(AfterNullRefCheck(site))]
    + (ResolveStep(site)
    + ([ExceptionCheckStep(site), Label(AfterAddressCheck(site))]
    + (BoxStep(site)
    + ([Label(NotBoxedThis(site)), PopReg(EAX)]
    + (ReserveExtra(site.extraStackSpace)
    + [CallReg(EAX), Label(AfterNotBoxedThis(site))])))))
  }

  /** Lines 178-181: leave for the method's exception exit when the callee raised one. */
  function Epilogue(metal: bool): seq<Instr>
  {
    if metal then [] else [TestImm(ECX, ExceptionFlag), Jne(ExceptionExitLabel)]
  }

  /** The whole code for one call site, or the error a virtual call raises in metal mode
      (line 79), which is raised before anything is emitted. */
  function Lower(site: CallSite, metal: bool): (r: Result<seq<Instr>, Error>)
    requires |site.arguments| > 0
    ensures r.Failure? <==> !IsDirect(site) && metal
    ensures r.Failure? ==> r.error == VirtualInMetalMode(site.methodDescription)
  {
    if IsDirect(site) then Success(DirectShape(site) + Epilogue(metal))
    else if metal then Failure(VirtualInMetalMode(site.methodDescription))
    else Success(VirtualShape(site) + Epilogue(metal))
  }

  lemma LowerDirect(site: CallSite, metal: bool)
    requires |site.arguments| > 0 && IsDirect(site)
    ensures Lower(site, metal) == Success(DirectShape(site) + Epilogue(metal))
  {
  }

  lemma LowerVirtual(site: CallSite)
    requires |site.arguments| > 0 && !IsDirect(site)
    ensures Lower(site, false) == Success(VirtualShape(site) + Epilogue(false))
  {
  }

  /** The final call of either shape. */
  function FinalCall(site: CallSite): Instr
  {
    if IsDirect(site) then CallLabel(site.normalAddress.value) else CallReg(EAX)
  }

  /** Which instructions a selection keeps: the steps (the two checks and every call), the
      labels, the stack reservations (`sub esp, n`), or the type tests (`cmp dword [r + d], v`). */
  datatype Kind = Steps | Labels | Reserves | TypeTests

  predicate Keeps(kind: Kind, instr: Instr)
  {
    match kind
    case Steps => instr.CallLabel? || instr.CallReg? || instr.NullCheck? || instr.ExceptionCheck?
    case Labels => instr.Label?
    case Reserves => instr.SubImm? && instr.dst == ESP
    case TypeTests => instr.CmpField?
  }

  /** The instructions of `code` that `keep` selects, in order. */
  function Select(code: seq<Instr>, keep: Kind): (r: seq<Instr>)
    decreases |code|
  {
    if code == [] then [] else (if Keeps(keep, code[0]) then [code[0]] else []) + Select(code[1..], keep)
  }

  lemma {:induction false} SelectAppend(a: seq<Instr>, b: seq<Instr>, keep: Kind)
    ensures Select(a + b, keep) == Select(a, keep) + Select(b, keep)
    decreases |a|
  {
    if a == [] {
      assert a + b == b;
    } else {
      assert (a + b)[0] == a[0] && (a + b)[1..] == a[1..] + b;
      SelectAppend(a[1..], b, keep);
    }
  }

  /** Every instruction `keep` selects is in the selection. */
  lemma {:induction false} SelectKeeps(code: seq<Instr>, keep: Kind, i: nat)
    requires i < |code| && Keeps(keep, code[i])
    ensures code[i] in Select(code, keep)
    decreases i
  {
    if i > 0 {
      SelectKeeps(code[1..], keep, i - 1);
    }
  }

  lemma SelectPair(x: Instr, y: Instr, keep: Kind)
    ensures Select([x, y], keep) == (if Keeps(keep, x) then [x] else []) + (if Keeps(keep, y) then [y] else [])
  {
    assert [x, y][1..] == [y];
    SelectSingle(y, keep);
  }

  lemma SelectSingle(x: Instr, keep: Kind)
    ensures Select([x], keep) == if Keeps(keep, x) then [x] else []
  {
    assert [x][1..] == [];
  }

  /** What is selected comes from the code. */
  lemma {:induction false} SelectFrom(code: seq<Instr>, keep: Kind, x: Instr)
    requires x in Select(code, keep)
    ensures x in code && Keeps(keep, x)
    decreases |code|
  {
    if x != code[0] || !Keeps(keep, code[0]) {
      SelectFrom(code[1..], keep, x);
    }
  }

  /** An instruction of the kind `keep` selects is in the code exactly when it is in the selection. */
  lemma SelectMember(code: seq<Instr>, keep: Kind, x: Instr)
    requires Keeps(keep, x)
    ensures x in code <==> x in Select(code, keep)
  {
    if x in code {
      var i :| 0 <= i < |code| && code[i] == x;
      SelectKeeps(code, keep, i);
    }
    if x in Select(code, keep) {
      SelectFrom(code, keep, x);
    }
  }

  /** Nothing is selected from code whose every instruction `keep` rejects. */
  lemma {:induction false} SelectNone(code: seq<Instr>, keep: Kind)
    requires forall i :: 0 <= i < |code| ==> !Keeps(keep, code[i])
    ensures Select(code, keep) == []
    decreases |code|
  {
    if code != [] {
      SelectNone(code[1..], keep);
    }
  }
}

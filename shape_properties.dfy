/**
 * What the code of one call site is made of, proved from the definitions in module Lowering:
 * the steps and labels of each shape and their order.
 */
module ShapeProperties {
  import opened Instructions
  import opened Collaborators
  import opened Lowering

  /** Select over shape A and the epilogue, from what it selects over each of its pieces. */
  lemma SelectDirect(site: CallSite, metal: bool, keep: Kind, fromCheck: seq<Instr>, fromCall: seq<Instr>)
    requires IsDirect(site)
    requires Select([NullCheckStep(site), Label(AfterNullRefCheck(site))], keep) == fromCheck
    requires Select([CallLabel(site.normalAddress.value)], keep) == fromCall
    ensures Select(DirectShape(site) + Epilogue(metal), keep)
         == fromCheck + (Select(ReserveExtra(site.extraStackSpace), keep) + fromCall) + Select(Epilogue(metal), keep)
  {
    var reserve := ReserveExtra(site.extraStackSpace);
    Fold(reserve, [CallLabel(site.normalAddress.value)], keep, Select(reserve, keep), fromCall);
    Fold([NullCheckStep(site), Label(AfterNullRefCheck(site))], reserve + [CallLabel(site.normalAddress.value)],
         keep, fromCheck, Select(reserve, keep) + fromCall);
    SelectAppend(DirectShape(site), Epilogue(metal), keep);
  }

  /** What each kind selects from the pieces without a label or a check of their own. */
  lemma SelectResolve(site: CallSite)
    ensures Select(ResolveStep(site), Steps) == [CallLabel(GetMethodAddressForType.labelName)]
    ensures Select(ResolveStep(site), Labels) == []
    ensures Select(ResolveStep(site), Reserves) == []
    ensures Select(ResolveStep(site), TypeTests) == []
  {
    SelectResolveAs(site, Steps);
    SelectResolveAs(site, Labels);
    SelectResolveAs(site, Reserves);
    SelectResolveAs(site, TypeTests);
  }

  lemma SelectResolveAs(site: CallSite, keep: Kind)
    ensures Select(ResolveStep(site), keep)
         == (if Keeps(keep, ResolveStep(site)[3]) then [ResolveStep(site)[3]] else [])
  {
    var r := ResolveStep(site);
    assert r == [r[0]] + ([r[1]] + [r[2], r[3]]);
    SelectAppend([r[0]], [r[1]] + [r[2], r[3]], keep);
    SelectAppend([r[1]], [r[2], r[3]], keep);
    SelectSingle(r[0], keep);
    SelectSingle(r[1], keep);
    SelectPair(r[2], r[3], keep);
  }

  lemma SelectBox(site: CallSite, keep: Kind)
    requires |site.arguments| > 0 && keep != TypeTests
    ensures Select(BoxStep(site), keep) == []
  {
    SelectNone(BoxStep(site), keep);
  }

  /** The box block holds exactly one type test, the one on the receiver's type tag. */
  lemma SelectBoxTests(site: CallSite)
    requires |site.arguments| > 0
    ensures Select(BoxStep(site), TypeTests)
         == if site.arguments[0].declaredObject then [CmpField(EAX, TypeTagDisplacement, BoxedValueType)] else []
  {
    var b := BoxStep(site);
    if site.arguments[0].declaredObject {
      assert b == [b[0]] + ([b[1]] + b[2..]);
      SelectAppend([b[0]], [b[1]] + b[2..], TypeTests);
      SelectAppend([b[1]], b[2..], TypeTests);
      SelectSingle(b[0], TypeTests);
      SelectSingle(b[1], TypeTests);
      SelectNone(b[2..], TypeTests);
    }
  }

  lemma SelectReserve(extra: int)
    ensures Select(ReserveExtra(extra), Steps) == []
    ensures Select(ReserveExtra(extra), Labels) == []
    ensures Select(ReserveExtra(extra), Reserves) == ReserveExtra(extra)
    ensures Select(ReserveExtra(extra), TypeTests) == []
  {
    if extra > 0 {
      SelectSingle(SubImm(ESP, extra), Steps);
      SelectSingle(SubImm(ESP, extra), Labels);
      SelectSingle(SubImm(ESP, extra), Reserves);
      SelectSingle(SubImm(ESP, extra), TypeTests);
    }
  }

  lemma SelectEpilogue(metal: bool)
    ensures Select(Epilogue(metal), Steps) == []
    ensures Select(Epilogue(metal), Labels) == []
    ensures Select(Epilogue(metal), Reserves) == []
    ensures Select(Epilogue(metal), TypeTests) == []
  {
    if !metal {
      SelectPair(TestImm(ECX, ExceptionFlag), Jne(ExceptionExitLabel), TypeTests);
      SelectPair(TestImm(ECX, ExceptionFlag), Jne(ExceptionExitLabel), Steps);
      SelectPair(TestImm(ECX, ExceptionFlag), Jne(ExceptionExitLabel), Labels);
      SelectPair(TestImm(ECX, ExceptionFlag), Jne(ExceptionExitLabel), Reserves);
    }
  }

  lemma DirectStepList(site: CallSite, metal: bool)
    requires IsDirect(site)
    ensures Select(DirectShape(site) + Epilogue(metal), Steps) == [NullCheckStep(site), CallLabel(site.normalAddress.value)]
  {
    var call := CallLabel(site.normalAddress.value);
    SelectPair(NullCheckStep(site), Label(AfterNullRefCheck(site)), Steps);
    SelectSingle(call, Steps);
    SelectReserve(site.extraStackSpace);
    SelectEpilogue(metal);
    SelectDirect(site, metal, Steps, [NullCheckStep(site)], [call]);
    assert [NullCheckStep(site)] + ([] + [call]) + [] == [NullCheckStep(site), call];
  }

  /** Select over a concatenation, from what it selects over each part. */
  lemma Fold(a: seq<Instr>, b: seq<Instr>, keep: Kind, fromA: seq<Instr>, fromB: seq<Instr>)
    requires Select(a, keep) == fromA && Select(b, keep) == fromB
    ensures Select(a + b, keep) == fromA + fromB
  {
    SelectAppend(a, b, keep);
  }

  /** The part of shape B up to the label after the exception check. */
  function VirtualHead(site: CallSite): seq<Instr>
  {
    [NullCheckStep(site), Label(AfterNullRefCheck(site))]
    + (ResolveStep(site) + [ExceptionCheckStep(site), Label(AfterAddressCheck(site))])
  }

  lemma VirtualSplit(site: CallSite)
    requires |site.arguments| > 0
    ensures VirtualShape(site) == VirtualHead(site) + VirtualTail(site)
  {
  }

  /** The part of shape B after the exception check holds one step: the call through EAX. */
  function VirtualTail(site: CallSite): seq<Instr>
    requires |site.arguments| > 0
  {
    BoxStep(site)
    + ([Label(NotBoxedThis(site)), PopReg(EAX)]
    + (ReserveExtra(site.extraStackSpace)
    + [CallReg(EAX), Label(AfterNotBoxedThis(site))]))
  }

  lemma VirtualTailSteps(site: CallSite)
    requires |site.arguments| > 0
    ensures Select(VirtualTail(site), Steps) == [CallReg(EAX)]
  {
    var p5, p6 := [Label(NotBoxedThis(site)), PopReg(EAX)], ReserveExtra(site.extraStackSpace);
    var p7 := [CallReg(EAX), Label(AfterNotBoxedThis(site))];
    SelectPair(CallReg(EAX), Label(AfterNotBoxedThis(site)), Steps);
    SelectReserve(site.extraStackSpace);
    Fold(p6, p7, Steps, [], [CallReg(EAX)]);
    SelectPair(Label(NotBoxedThis(site)), PopReg(EAX), Steps);
    Fold(p5, p6 + p7, Steps, [], [CallReg(EAX)]);
    SelectBox(site, Steps);
    Fold(BoxStep(site), p5 + (p6 + p7), Steps, [], [CallReg(EAX)]);
  }

  /** Four parts that each select one instruction select the four in order. */
  lemma FoldFour(p1: seq<Instr>, p2: seq<Instr>, p3: seq<Instr>, p4: seq<Instr>, keep: Kind,
                 a: Instr, b: Instr, c: Instr, d: Instr)
    requires Select(p1, keep) == [a] && Select(p2, keep) == [b]
    requires Select(p3, keep) == [c] && Select(p4, keep) == [d]
    ensures Select(p1 + (p2 + (p3 + p4)), keep) == [a, b, c, d]
  {
    Fold(p3, p4, keep, [c], [d]);
    Fold(p2, p3 + p4, keep, [b], [c, d]);
    Fold(p1, p2 + (p3 + p4), keep, [a], [b, c, d]);
  }

  lemma VirtualStepList(site: CallSite)
    requires |site.arguments| > 0
    ensures Select(VirtualShape(site) + Epilogue(false), Steps)
         == [NullCheckStep(site), CallLabel(GetMethodAddressForType.labelName), ExceptionCheckStep(site), CallReg(EAX)]
  {
    var p1, p2 := [NullCheckStep(site), Label(AfterNullRefCheck(site))], ResolveStep(site);
    var p3, tail := [ExceptionCheckStep(site), Label(AfterAddressCheck(site))], VirtualTail(site);
    VirtualTailSteps(site);
    SelectPair(ExceptionCheckStep(site), Label(AfterAddressCheck(site)), Steps);
    SelectResolve(site);
    SelectPair(NullCheckStep(site), Label(AfterNullRefCheck(site)), Steps);
    FoldFour(p1, p2, p3, tail, Steps,
             NullCheckStep(site), CallLabel(GetMethodAddressForType.labelName), ExceptionCheckStep(site), CallReg(EAX));
    SelectEpilogue(false);
    SelectAppend(VirtualShape(site), Epilogue(false), Steps);
  }

  /** The part of shape B after the exception check defines two labels, in this order. */
  lemma VirtualTailLabels(site: CallSite)
    requires |site.arguments| > 0
    ensures Select(VirtualTail(site), Labels) == [Label(NotBoxedThis(site)), Label(AfterNotBoxedThis(site))]
  {
    var p5, p6 := [Label(NotBoxedThis(site)), PopReg(EAX)], ReserveExtra(site.extraStackSpace);
    var p7 := [CallReg(EAX), Label(AfterNotBoxedThis(site))];
    var c, d := Label(NotBoxedThis(site)), Label(AfterNotBoxedThis(site));
    SelectPair(CallReg(EAX), d, Labels);
    SelectReserve(site.extraStackSpace);
    Fold(p6, p7, Labels, [], [d]);
    SelectPair(c, PopReg(EAX), Labels);
    Fold(p5, p6 + p7, Labels, [c], [d]);
    SelectBox(site, Labels);
    Fold(BoxStep(site), p5 + (p6 + p7), Labels, [], [c, d]);
  }

  /** Four parts that select one, none, one and two instructions select the four in order. */
  lemma FoldLabels(p1: seq<Instr>, p2: seq<Instr>, p3: seq<Instr>, p4: seq<Instr>, keep: Kind,
                   a: Instr, b: Instr, c: Instr, d: Instr)
    requires Select(p1, keep) == [a] && Select(p2, keep) == []
    requires Select(p3, keep) == [b] && Select(p4, keep) == [c, d]
    ensures Select(p1 + (p2 + (p3 + p4)), keep) == [a, b, c, d]
  {
    var rest := p2 + (p3 + p4);
    SelectAppend(p3, p4, keep);
    assert Select(p3 + p4, keep) == [b, c, d];
    SelectAppend(p2, p3 + p4, keep);
    assert Select(rest, keep) == [b, c, d];
    SelectAppend(p1, rest, keep);
  }

  lemma VirtualLabelList(site: CallSite)
    requires |site.arguments| > 0
    ensures Select(VirtualShape(site) + Epilogue(false), Labels)
         == [Label(AfterNullRefCheck(site)), Label(AfterAddressCheck(site)),
             Label(NotBoxedThis(site)), Label(AfterNotBoxedThis(site))]
  {
    var p1, p2 := [NullCheckStep(site), Label(AfterNullRefCheck(site))], ResolveStep(site);
    var p3, tail := [ExceptionCheckStep(site), Label(AfterAddressCheck(site))], VirtualTail(site);
    VirtualTailLabels(site);
    SelectPair(ExceptionCheckStep(site), Label(AfterAddressCheck(site)), Labels);
    SelectResolve(site);
    SelectPair(NullCheckStep(site), Label(AfterNullRefCheck(site)), Labels);
    FoldLabels(p1, p2, p3, tail, Labels, Label(AfterNullRefCheck(site)), Label(AfterAddressCheck(site)),
               Label(NotBoxedThis(site)), Label(AfterNotBoxedThis(site)));
    SelectEpilogue(false);
    SelectAppend(VirtualShape(site), Epilogue(false), Labels);
  }

  /** Shape A: a null check and then one call, to the target's own label; no resolver call and no
      other call at all. */
  lemma DirectShapeSteps(site: CallSite, metal: bool)
    requires |site.arguments| > 0 && IsDirect(site)
    ensures Lower(site, metal).Success?
    ensures Select(Lower(site, metal).value, Steps) == [NullCheckStep(site), CallLabel(site.normalAddress.value)]
  {
    LowerDirect(site, metal);
    DirectStepList(site, metal);
  }

  /** Shape B, in order: the null check, the resolver call, the exception check, the call through
      EAX, and no other call. */
  lemma VirtualShapeSteps(site: CallSite)
    requires |site.arguments| > 0 && !IsDirect(site)
    ensures Lower(site, false).Success?
    ensures Select(Lower(site, false).value, Steps)
         == [NullCheckStep(site), CallLabel(GetMethodAddressForType.labelName), ExceptionCheckStep(site), CallReg(EAX)]
  {
    LowerVirtual(site);
    VirtualStepList(site);
  }

  /** Shape B's four labels, in the order the source places them. */
  lemma VirtualShapeLabels(site: CallSite)
    requires |site.arguments| > 0 && !IsDirect(site)
    ensures Lower(site, false).Success?
    ensures Select(Lower(site, false).value, Labels)
         == [Label(AfterNullRefCheck(site)), Label(AfterAddressCheck(site)),
             Label(NotBoxedThis(site)), Label(AfterNotBoxedThis(site))]
  {
    LowerVirtual(site);
    VirtualLabelList(site);
  }
}

/**
 * Further properties of the code one call site lowers to: where the extra stack space is
 * reserved, when the box block is emitted and that both of its paths meet at `_NOT_BOXED_THIS`
 * with the machine stack as it was, that every early exit runs the cleanup, when the exception
 * epilogue is emitted, and that the labels of a call site are distinct.
 */
module SiteProperties {
  import opened Instructions
  import opened BoxAdjustment
  import opened Lowering
  import opened ShapeProperties

  lemma DirectReserveList(site: CallSite, metal: bool)
    requires IsDirect(site)
    ensures Select(DirectShape(site) + Epilogue(metal), Reserves) == ReserveExtra(site.extraStackSpace)
  {
    SelectPair(NullCheckStep(site), Label(AfterNullRefCheck(site)), Reserves);
    SelectSingle(CallLabel(site.normalAddress.value), Reserves);
    SelectReserve(site.extraStackSpace);
    SelectEpilogue(metal);
    SelectDirect(site, metal, Reserves, [], []);
    assert [] + (ReserveExtra(site.extraStackSpace) + []) + [] == ReserveExtra(site.extraStackSpace);
  }

  lemma VirtualReserveList(site: CallSite)
    requires |site.arguments| > 0
    ensures Select(VirtualShape(site) + Epilogue(false), Reserves) == ReserveExtra(site.extraStackSpace)
  {
    var reserve := ReserveExtra(site.extraStackSpace);
    var p1, p2 := [NullCheckStep(site), Label(AfterNullRefCheck(site))], ResolveStep(site);
    var p3, tail := [ExceptionCheckStep(site), Label(AfterAddressCheck(site))], VirtualTail(site);
    var p5, p7 := [Label(NotBoxedThis(site)), PopReg(EAX)], [CallReg(EAX), Label(AfterNotBoxedThis(site))];
    SelectReserve(site.extraStackSpace);
    SelectPair(CallReg(EAX), Label(AfterNotBoxedThis(site)), Reserves);
    Fold(reserve, p7, Reserves, reserve, []);
    SelectPair(Label(NotBoxedThis(site)), PopReg(EAX), Reserves);
    Fold(p5, reserve + p7, Reserves, [], reserve);
    SelectBox(site, Reserves);
    Fold(BoxStep(site), p5 + (reserve + p7), Reserves, [], reserve);
    SelectPair(ExceptionCheckStep(site), Label(AfterAddressCheck(site)), Reserves);
    Fold(p3, tail, Reserves, [], reserve);
    SelectResolve(site);
    Fold(p2, p3 + tail, Reserves, [], reserve);
    SelectPair(NullCheckStep(site), Label(AfterNullRefCheck(site)), Reserves);
    Fold(p1, p2 + (p3 + tail), Reserves, [], reserve);
    SelectEpilogue(false);
    Fold(VirtualShape(site), Epilogue(false), Reserves, reserve, []);
  }

  /** In shape A the final call follows the label after the null check or the reservation. */
  lemma DirectFinalCall(site: CallSite, metal: bool)
    requires IsDirect(site)
    ensures var code, k := DirectShape(site) + Epilogue(metal), 2 + |ReserveExtra(site.extraStackSpace)|;
      k < |code| && code[k] == FinalCall(site)
      && code[k - 1] == (if site.extraStackSpace > 0 then SubImm(ESP, site.extraStackSpace)
                         else Label(AfterNullRefCheck(site)))
  {
    var head := [NullCheckStep(site), Label(AfterNullRefCheck(site))] + ReserveExtra(site.extraStackSpace);
    var code := DirectShape(site) + Epilogue(metal);
    assert code == head + ([CallLabel(site.normalAddress.value)] + Epilogue(metal));
  }

  /** In shape B the final call follows `pop eax` or the reservation, and precedes one label. */
  lemma VirtualFinalCall(site: CallSite)
    requires |site.arguments| > 0 && !IsDirect(site)
    ensures var code, k := VirtualShape(site) + Epilogue(false), |VirtualShape(site)| - 2;
      0 < k < |code| && code[k] == FinalCall(site)
      && code[k - 1] == (if site.extraStackSpace > 0 then SubImm(ESP, site.extraStackSpace) else PopReg(EAX))
  {
    var head := [NullCheckStep(site), Label(AfterNullRefCheck(site))]
              + (ResolveStep(site) + ([ExceptionCheckStep(site), Label(AfterAddressCheck(site))]
              + (BoxStep(site) + [Label(NotBoxedThis(site)), PopReg(EAX)])));
    var rest := ReserveExtra(site.extraStackSpace) + [CallReg(EAX), Label(AfterNotBoxedThis(site))];
    assert VirtualShape(site) == head + rest;
    assert head[|head| - 1] == PopReg(EAX);
  }

  /** The extra stack space (lines 72-74 and 172-174) is reserved once, by the amount the callee
      needs, only when that amount is positive, and as the instruction right before the final
      call; the arguments already pushed therefore stay where the callee expects them. */
  lemma ExtraSpaceBeforeFinalCall(site: CallSite, metal: bool)
    requires |site.arguments| > 0 && Lower(site, metal).Success?
    ensures Select(Lower(site, metal).value, Reserves) == ReserveExtra(site.extraStackSpace)
    ensures var code := Lower(site, metal).value;
      var k := if IsDirect(site) then 2 + |ReserveExtra(site.extraStackSpace)| else |VirtualShape(site)| - 2;
      0 < k < |code| && code[k] == FinalCall(site)
      && (code[k - 1] == SubImm(ESP, site.extraStackSpace) <==> site.extraStackSpace > 0)
  {
    if IsDirect(site) {
      LowerDirect(site, metal);
      DirectReserveList(site, metal);
      DirectFinalCall(site, metal);
    } else {
      LowerVirtual(site);
      VirtualReserveList(site);
      VirtualFinalCall(site);
    }
  }

  lemma VirtualTypeTests(site: CallSite)
    requires |site.arguments| > 0
    ensures Select(VirtualShape(site) + Epilogue(false), TypeTests)
         == if site.arguments[0].declaredObject then [CmpField(EAX, TypeTagDisplacement, BoxedValueType)] else []
  {
    var tests := Select(BoxStep(site), TypeTests);
    var p1, p2 := [NullCheckStep(site), Label(AfterNullRefCheck(site))], ResolveStep(site);
    var p3, tail := [ExceptionCheckStep(site), Label(AfterAddressCheck(site))], VirtualTail(site);
    var p5, p6 := [Label(NotBoxedThis(site)), PopReg(EAX)], ReserveExtra(site.extraStackSpace);
    var p7 := [CallReg(EAX), Label(AfterNotBoxedThis(site))];
    SelectBoxTests(site);
    SelectReserve(site.extraStackSpace);
    SelectPair(CallReg(EAX), Label(AfterNotBoxedThis(site)), TypeTests);
    Fold(p6, p7, TypeTests, [], []);
    SelectPair(Label(NotBoxedThis(site)), PopReg(EAX), TypeTests);
    Fold(p5, p6 + p7, TypeTests, [], []);
    Fold(BoxStep(site), p5 + (p6 + p7), TypeTests, tests, []);
    SelectPair(ExceptionCheckStep(site), Label(AfterAddressCheck(site)), TypeTests);
    Fold(p3, tail, TypeTests, [], tests);
    SelectResolve(site);
    Fold(p2, p3 + tail, TypeTests, [], tests);
    SelectPair(NullCheckStep(site), Label(AfterNullRefCheck(site)), TypeTests);
    Fold(p1, p2 + (p3 + tail), TypeTests, [], tests);
    SelectEpilogue(false);
    Fold(VirtualShape(site), Epilogue(false), TypeTests, tests, []);
  }

  lemma DirectTypeTests(site: CallSite, metal: bool)
    requires IsDirect(site)
    ensures Select(DirectShape(site) + Epilogue(metal), TypeTests) == []
  {
    SelectPair(NullCheckStep(site), Label(AfterNullRefCheck(site)), TypeTests);
    SelectSingle(CallLabel(site.normalAddress.value), TypeTests);
    SelectReserve(site.extraStackSpace);
    SelectEpilogue(metal);
    SelectDirect(site, metal, TypeTests, [], []);
  }

  /** The receiver's type tag is tested (line 124) exactly when the call goes through the vtable
      and argument 0 is declared `object`, and then only once. */
  lemma BoxTestIffObjectReceiver(site: CallSite, metal: bool)
    requires |site.arguments| > 0 && Lower(site, metal).Success?
    ensures Select(Lower(site, metal).value, TypeTests)
         == if !IsDirect(site) && site.arguments[0].declaredObject
            then [CmpField(EAX, TypeTagDisplacement, BoxedValueType)] else []
    ensures CmpField(EAX, TypeTagDisplacement, BoxedValueType) in Lower(site, metal).value
        <==> !IsDirect(site) && site.arguments[0].declaredObject
  {
    if IsDirect(site) {
      LowerDirect(site, metal);
      DirectTypeTests(site, metal);
    } else {
      LowerVirtual(site);
      VirtualTypeTests(site);
    }
    SelectMember(Lower(site, metal).value, TypeTests, CmpField(EAX, TypeTagDisplacement, BoxedValueType));
  }

  /** Shape B from the label after the exception check on is the box block, if any, then the
      `_NOT_BOXED_THIS` label and the rest. */
  lemma VirtualAfterCheck(site: CallSite)
    requires |site.arguments| > 0
    ensures var code := VirtualShape(site) + Epilogue(false);
      |code| > 8 && code[7] == Label(AfterAddressCheck(site))
      && code[8..] == VirtualTail(site) + Epilogue(false)
  {
    var head := [NullCheckStep(site), Label(AfterNullRefCheck(site))]
              + ResolveStep(site) + [ExceptionCheckStep(site), Label(AfterAddressCheck(site))];
    var code := VirtualShape(site) + Epilogue(false);
    assert |head| == 8;
    assert code == head + (VirtualTail(site) + Epilogue(false));
  }

  /** After the exception check, shape B either runs the box block (lines 116-169), which reads
      the receiver one word up and writes the unboxed address back to its own slot, or goes
      straight to `_NOT_BOXED_THIS`; either way control first reaches that label with the machine
      stack as it was after the check, so the `pop eax` there takes the resolved method address. */
  lemma BoxBlockMeetsAtNotBoxed(site: CallSite)
    requires |site.arguments| > 0 && !IsDirect(site)
    ensures Lower(site, false).Success?
    ensures var code := Lower(site, false).value;
      && |code| > 8 && code[7] == Label(AfterAddressCheck(site))
      && (site.arguments[0].declaredObject ==>
            |code| > 17 && code[8..17] == BoxAdjust(site.thisOffset, NotBoxedThis(site))
            && code[17] == Label(NotBoxedThis(site)))
      && (!site.arguments[0].declaredObject ==> code[8] == Label(NotBoxedThis(site)))
      && ArrivalDepths(code[8..], NotBoxedThis(site), 0) == {0}
  {
    LowerVirtual(site);
    VirtualAfterCheck(site);
    var code := Lower(site, false).value;
    var nb := NotBoxedThis(site);
    var rest := [PopReg(EAX)] + (ReserveExtra(site.extraStackSpace)
              + [CallReg(EAX), Label(AfterNotBoxedThis(site))]) + Epilogue(false);
    assert VirtualTail(site) + Epilogue(false) == BoxStep(site) + ([Label(nb)] + rest);
    if site.arguments[0].declaredObject {
      var block := BoxAdjust(site.thisOffset, nb);
      assert code[8..] == (block + [Label(nb)]) + rest;
      assert code[8..17] == code[8..][..9];
      ArrivalsStopAtTarget(block + [Label(nb)], rest, nb, 0);
      BoxAdjustArrivesAtEntryDepth(site.thisOffset, nb);
    } else {
      assert code[8..] == [Label(nb)] + rest;
      ArrivalsStopAtTarget([Label(nb)], rest, nb, 0);
      BoxAdjustArrivesAtEntryDepth(site.thisOffset, nb);
    }
  }

  /** Every null check and every exception check in the code is the one built for this call
      site (on the receiver slot, at this IL offset), and each hands the cleanup that releases
      exactly the callee's argument bytes to its early exit. */
  lemma CleanupOnEveryExit(site: CallSite, metal: bool)
    requires |site.arguments| > 0 && Lower(site, metal).Success?
    ensures var code := Lower(site, metal).value;
      forall i :: 0 <= i < |code| && (code[i].NullCheck? || code[i].ExceptionCheck?) ==>
        && (code[i].NullCheck? ==> code[i] == NullCheckStep(site))
        && (code[i].ExceptionCheck? ==> code[i] == ExceptionCheckStep(site))
        && code[i].cleanup == Cleanup(site.arguments)
    ensures NetStackEffect(Cleanup(site.arguments)) == -ArgumentBytes(site.arguments)
  {
    var code := Lower(site, metal).value;
    if IsDirect(site) {
      DirectShapeSteps(site, metal);
    } else {
      VirtualShapeSteps(site);
    }
    forall i | 0 <= i < |code| && (code[i].NullCheck? || code[i].ExceptionCheck?)
      ensures code[i].NullCheck? ==> code[i] == NullCheckStep(site)
      ensures code[i].ExceptionCheck? ==> code[i] == ExceptionCheckStep(site)
      ensures code[i].cleanup == Cleanup(site.arguments)
    {
      SelectKeeps(code, Steps, i);
    }
    CleanupReleasesArguments(site.arguments);
  }

  /** The code ends with the test of ECX and the jump to the method's exception exit (lines
      178-181) exactly when the assembler is not in metal mode. */
  lemma EpilogueIffNotMetal(site: CallSite, metal: bool)
    requires |site.arguments| > 0 && Lower(site, metal).Success?
    ensures var code := Lower(site, metal).value;
      (|code| >= 2 && code[|code| - 2..] == [TestImm(ECX, ExceptionFlag), Jne(ExceptionExitLabel)]) <==> !metal
  {
    var code := Lower(site, metal).value;
    if metal {
      LowerDirect(site, metal);
      assert code[|code| - 1] == CallLabel(site.normalAddress.value);
    } else if IsDirect(site) {
      LowerDirect(site, metal);
    } else {
      LowerVirtual(site);
    }
  }

  lemma {:induction false} PrefixedDistinct(prefix: string, a: string, b: string)
    requires a != b
    ensures prefix + a != prefix + b
  {
    assert (prefix + a)[|prefix|..] == a;
    assert (prefix + b)[|prefix|..] == b;
  }

  /** The four labels of a call site are pairwise distinct, so each jump has one target. */
  lemma LabelsDistinct(site: CallSite)
    ensures AfterNullRefCheck(site) != AfterAddressCheck(site)
    ensures AfterNullRefCheck(site) != NotBoxedThis(site)
    ensures AfterNullRefCheck(site) != AfterNotBoxedThis(site)
    ensures AfterAddressCheck(site) != NotBoxedThis(site)
    ensures AfterAddressCheck(site) != AfterNotBoxedThis(site)
    ensures NotBoxedThis(site) != AfterNotBoxedThis(site)
  {
    var p := site.labelName;
    PrefixedDistinct(p, "_AfterNullRefCheck", "_AfterAddressCheck");
    PrefixedDistinct(p, "_AfterNullRefCheck", "_NOT_BOXED_THIS");
    PrefixedDistinct(p, "_AfterNullRefCheck", "__AFTER_NOT_BOXED_THIS");
    PrefixedDistinct(p, "_AfterAddressCheck", "_NOT_BOXED_THIS");
    PrefixedDistinct(p, "_AfterAddressCheck", "__AFTER_NOT_BOXED_THIS");
    PrefixedDistinct(p, "_NOT_BOXED_THIS", "__AFTER_NOT_BOXED_THIS");
  }
}

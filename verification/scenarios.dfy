/** Concrete runs of `addWord`, `flush` and `search`, stepped through call
    by call, as the tests of `GSuffixTree` exercise them. Each step
    states one call and its result; the well-formedness of every
    intermediate tree comes from the contract of the call that built it.
    The steps are ghost methods that run in sequence, each ensuring the
    facts the next one needs. The constants `R0`..`R16` (the run of
    `RepeatThenExtend`) and `C0`..`C32` (the runs of `CacaoFound` and
    `CacaoTwice`) are the trees of the runs; the line above each names the
    call and the step that build it. */
module Scenarios {
  import opened Outcomes
  import opened GstNode
  import opened GstEdge
  import opened Arena
  import opened Propagation
  import opened Construction
  import opened Query
  import opened Strings

  // R0: `EmptyTree()`
  const R0: Tree := Tree([Node({}, map[], -1)], [], 0, 0, 0)

  // R1: built by `AttachLeaf(R0, 0, 'a', "aa", 0)` in `RStep3`
  const R1: Tree := Tree([Node({}, map['a' := 0], -1), Node({0}, map[], -1)], [Edge("aa", 1)], 0, 0, 0)

  // R2: `R1` with `activeLeaf := 1`, made in `R2Wf`
  const R2: Tree := Tree([Node({}, map['a' := 0], -1), Node({0}, map[], -1)], [Edge("aa", 1)], 0, 0, 1)

  // R3: built by `SplitArena(R2, 0, 'a', "a", {0})` in `RStep18`
  const R3: Tree := Tree([Node({}, map['a' := 1], -1), Node({0}, map[], -1), Node({0}, map['a' := 0], -1)], [Edge("a", 1), Edge("a", 2)], 0, 0, 1)

  // R4: built by `LinkUnlessRoot(R3, 1, 2)` in `RStep23`
  const R4: Tree := Tree([Node({}, map['a' := 1], -1), Node({0}, map[], 2), Node({0}, map['a' := 0], -1)], [Edge("a", 1), Edge("a", 2)], 0, 0, 1)

  // R5: `R4` with `activeLeaf := 2`, made in `R5Wf`
  const R5: Tree := Tree([Node({}, map['a' := 1], -1), Node({0}, map[], 2), Node({0}, map['a' := 0], -1)], [Edge("a", 1), Edge("a", 2)], 0, 0, 2)

  // R6: built by `LinkUnlessRoot(R5, 2, 0)` in `RStep39`; also the result of `AddWord(R0, "aa", 0)` (RStep40)
  const R6: Tree := Tree([Node({}, map['a' := 1], -1), Node({0}, map[], 2), Node({0}, map['a' := 0], 0)], [Edge("a", 1), Edge("a", 2)], 0, 0, 2)

  // R7: `R6` with `last := 1, activeLeaf := 0`, made in `R7Wf`
  const R7: Tree := Tree([Node({}, map['a' := 1], -1), Node({0}, map[], 2), Node({0}, map['a' := 0], 0)], [Edge("a", 1), Edge("a", 2)], 1, 0, 0)

  // R8: built by `AttachLeaf(R7, 1, 'b', "b", 1)` in `RStep56`
  const R8: Tree := Tree([Node({}, map['a' := 1], -1), Node({0}, map['b' := 2], 2), Node({0}, map['a' := 0], 0), Node({1}, map[], -1)], [Edge("a", 1), Edge("a", 2), Edge("b", 3)], 1, 0, 0)

  // R9: `R8` with `activeLeaf := 3`, made in `R9Wf`
  const R9: Tree := Tree([Node({}, map['a' := 1], -1), Node({0}, map['b' := 2], 2), Node({0}, map['a' := 0], 0), Node({1}, map[], -1)], [Edge("a", 1), Edge("a", 2), Edge("b", 3)], 1, 0, 3)

  // R10: built by `AttachLeaf(R9, 2, 'b', "b", 1)` in `RStep66`
  const R10: Tree := Tree([Node({}, map['a' := 1], -1), Node({0}, map['b' := 2], 2), Node({0}, map['a' := 0, 'b' := 3], 0), Node({1}, map[], -1), Node({1}, map[], -1)], [Edge("a", 1), Edge("a", 2), Edge("b", 3), Edge("b", 4)], 1, 0, 3)

  // R11: built by `LinkUnlessRoot(R10, 3, 4)` in `RStep67`
  const R11: Tree := Tree([Node({}, map['a' := 1], -1), Node({0}, map['b' := 2], 2), Node({0}, map['a' := 0, 'b' := 3], 0), Node({1}, map[], 4), Node({1}, map[], -1)], [Edge("a", 1), Edge("a", 2), Edge("b", 3), Edge("b", 4)], 1, 0, 3)

  // R12: `R11` with `activeLeaf := 4`, made in `R12Wf`
  const R12: Tree := Tree([Node({}, map['a' := 1], -1), Node({0}, map['b' := 2], 2), Node({0}, map['a' := 0, 'b' := 3], 0), Node({1}, map[], 4), Node({1}, map[], -1)], [Edge("a", 1), Edge("a", 2), Edge("b", 3), Edge("b", 4)], 1, 0, 4)

  // R13: built by `AttachLeaf(R12, 0, 'b', "b", 1)` in `RStep76`
  const R13: Tree := Tree([Node({}, map['a' := 1, 'b' := 4], -1), Node({0}, map['b' := 2], 2), Node({0}, map['a' := 0, 'b' := 3], 0), Node({1}, map[], 4), Node({1}, map[], -1), Node({1}, map[], -1)], [Edge("a", 1), Edge("a", 2), Edge("b", 3), Edge("b", 4), Edge("b", 5)], 1, 0, 4)

  // R14: built by `LinkUnlessRoot(R13, 4, 5)` in `RStep77`
  const R14: Tree := Tree([Node({}, map['a' := 1, 'b' := 4], -1), Node({0}, map['b' := 2], 2), Node({0}, map['a' := 0, 'b' := 3], 0), Node({1}, map[], 4), Node({1}, map[], 5), Node({1}, map[], -1)], [Edge("a", 1), Edge("a", 2), Edge("b", 3), Edge("b", 4), Edge("b", 5)], 1, 0, 4)

  // R15: `R14` with `activeLeaf := 5`, made in `R15Wf`
  const R15: Tree := Tree([Node({}, map['a' := 1, 'b' := 4], -1), Node({0}, map['b' := 2], 2), Node({0}, map['a' := 0, 'b' := 3], 0), Node({1}, map[], 4), Node({1}, map[], 5), Node({1}, map[], -1)], [Edge("a", 1), Edge("a", 2), Edge("b", 3), Edge("b", 4), Edge("b", 5)], 1, 0, 5)

  // R16: built by `LinkUnlessRoot(R15, 5, 0)` in `RStep96`; also the result of `AddWord(R6, "aab", 1)` (RStep97)
  const R16: Tree := Tree([Node({}, map['a' := 1, 'b' := 4], -1), Node({0}, map['b' := 2], 2), Node({0}, map['a' := 0, 'b' := 3], 0), Node({1}, map[], 4), Node({1}, map[], 5), Node({1}, map[], 0)], [Edge("a", 1), Edge("a", 2), Edge("b", 3), Edge("b", 4), Edge("b", 5)], 1, 0, 5)

  ghost method R0Wf()
    ensures Wf(R0)
  {
    assert R0 == EmptyTree();
  }

  ghost method R2Wf()
    ensures Wf(R2)
  {
    RStep3();
    assert R2 == R1.(activeLeaf := 1);
    RelinkWf(R1, R2);
  }

  ghost method R5Wf()
    ensures Wf(R5)
  {
    RStep23();
    assert R5 == R4.(activeLeaf := 2);
    RelinkWf(R4, R5);
  }

  ghost method R7Wf()
    ensures Wf(R7)
  {
    RStep39();
    assert R7 == R6.(last := 1, activeLeaf := 0);
  }

  ghost method R9Wf()
    ensures Wf(R9)
  {
    RStep56();
    assert R9 == R8.(activeLeaf := 3);
    RelinkWf(R8, R9);
  }

  ghost method R12Wf()
    ensures Wf(R12)
  {
    RStep67();
    assert R12 == R11.(activeLeaf := 4);
    RelinkWf(R11, R12);
  }

  ghost method R15Wf()
    ensures Wf(R15)
  {
    RStep77();
    assert R15 == R14.(activeLeaf := 5);
    RelinkWf(R14, R15);
  }

  ghost method RStep0()
    ensures Wf(R0)
    ensures Canonize(R0, 0, "") == Position(0, "")
  {
    R0Wf();
  }

  ghost method RStep1()
    ensures Wf(R0)
    ensures AtNode(R0, 0, 'a', "aa", 0) == Success(Answer(R0, false, 0))
  {
    R0Wf();
  }

  ghost method RStep2()
    ensures Wf(R0)
    ensures TestAndSplit(R0, 0, "", 'a', "aa", 0) == Success(Answer(R0, false, 0))
  {
    R0Wf();
    RStep0();
    RStep1();
  }

  ghost method RStep3()
    ensures Wf(R0)
    ensures AttachLeaf(R0, 0, 'a', "aa", 0) == (R1, 1)
    ensures Wf(R1)
  {
    R0Wf();
    assert AttachLeaf(R0, 0, 'a', "aa", 0) == (Tree(R0.nodes[0 := AddEdge(R0.nodes[0], 'a', 0)] + [Node({0}, map[], -1)], R0.edges + [Edge("aa", 1)], R0.last, R0.root, R0.activeLeaf), 1);
    RSame3();
  }

  ghost method RStep4()
    ensures Wf(R1)
    ensures LinkUnlessRoot(R1, 0, 1) == R1
  {
    RStep3();
  }

  ghost method RStep5()
    ensures Wf(R2)
    ensures LinkUnlessRoot(R2, 0, 0) == R2
  {
    R2Wf();
  }

  ghost method RStep6()
    ensures Wf(R0)
    ensures Grow(R0, 0, 0, 'a', "aa", 0) == R2
    ensures Wf(R2)
  {
    R0Wf();
    RStep3();
    RStep4();
    RStep5();
  }

  ghost method RStep7()
    ensures Wf(R2)
    ensures NextPosition(R2, 0, "a") == Position(0, "")
  {
    R2Wf();
  }

  ghost method RStep8()
    ensures Wf(R2)
    ensures Canonize(R2, 0, "") == Position(0, "")
  {
    R2Wf();
  }

  ghost method RStep9()
    ensures Wf(R2)
    ensures AddIndex(R2, 1, 0) == R2
  {
    R2Wf();
  }

  ghost method RStep10()
    ensures Wf(R2)
    ensures AtNode(R2, 0, 'a', "aa", 0) == Success(Answer(R2, true, 0))
  {
    R2Wf();
    RStep9();
  }

  ghost method RStep11()
    ensures Wf(R2)
    ensures TestAndSplit(R2, 0, "", 'a', "aa", 0) == Success(Answer(R2, true, 0))
  {
    R2Wf();
    RStep8();
    RStep10();
  }

  ghost method RStep12()
    ensures Wf(R0)
    ensures Round(R0, 0, "a", 0, 0, 'a', "aa", 0) == Success((Answer(R2, true, 0), Position(0, "")))
    ensures Wf(R2)
  {
    R0Wf();
    RStep6();
    RStep7();
    RStep11();
  }

  ghost method RStep13()
    ensures Wf(R2)
    ensures UpdateLoop(R2, 0, "", 0, true, 0, 'a', "aa", 0, 2) == Success((R2, Position(0, "")))
  {
    R2Wf();
  }

  ghost method RStep14()
    ensures Wf(R0)
    ensures UpdateLoop(R0, 0, "a", 0, false, 0, 'a', "aa", 0, 3) == Success((R2, Position(0, "")))
    ensures Wf(R2)
  {
    R0Wf();
    RStep12();
    RStep13();
  }

  ghost method RStep15()
    ensures Wf(R0)
    ensures Update(R0, 0, "a", "aa", 0, 3) == Success((R2, Position(0, "")))
    ensures Wf(R2)
  {
    R0Wf();
    RStep2();
    RStep14();
  }

  ghost method RStep18()
    ensures SplitArena(R2, 0, 'a', "a", {0}) == R3
  {
    var a := SplitArena(R2, 0, 'a', "a", {0});
    assert a.nodes[0] == R3.nodes[0];
    assert a.nodes[1] == R3.nodes[1];
    assert a.nodes[2] == R3.nodes[2];
    assert a.nodes == R3.nodes;
    assert a.edges == R3.edges;
  }

  ghost method RStep19()
    ensures Wf(R2)
    ensures Split(R2, 0, 'a', "a", Some(0)) == (R3, 2)
    ensures Wf(R3)
  {
    R2Wf();
    RStep18();
    assert Split(R2, 0, 'a', "a", Some(0)) == (SplitArena(R2, 0, 'a', "a", {0}), 2);
  }

  ghost method RStep20()
    ensures Wf(R2)
    ensures AtNode(R2, 0, 'a', "a", 0) == Success(Answer(R3, false, 0))
    ensures Wf(R3)
  {
    R2Wf();
    RStep19();
  }

  ghost method RStep21()
    ensures Wf(R2)
    ensures TestAndSplit(R2, 0, "", 'a', "a", 0) == Success(Answer(R3, false, 0))
    ensures Wf(R3)
  {
    R2Wf();
    RStep8();
    RStep20();
  }

  ghost method RStep22()
    ensures Wf(R3)
    ensures AttachLeaf(R3, 0, 'a', "a", 0) == (R3, 2)
  {
    RStep19();
  }

  ghost method RStep23()
    ensures Wf(R3)
    ensures LinkUnlessRoot(R3, 1, 2) == R4
    ensures Wf(R4)
  {
    RStep19();
    assert LinkUnlessRoot(R3, 1, 2) == SetNode(R3, 1, SetSuffix(R3.nodes[1], 2));
    RSame23();
  }

  ghost method RStep24()
    ensures Wf(R5)
    ensures LinkUnlessRoot(R5, 0, 0) == R5
  {
    R5Wf();
  }

  ghost method RStep25()
    ensures Wf(R3)
    ensures Grow(R3, 0, 0, 'a', "a", 0) == R5
    ensures Wf(R5)
  {
    RStep19();
    RStep22();
    RStep23();
    RStep24();
  }

  ghost method RStep26()
    ensures Wf(R5)
    ensures NextPosition(R5, 0, "a") == Position(0, "")
  {
    R5Wf();
  }

  ghost method RStep27()
    ensures Wf(R5)
    ensures Canonize(R5, 0, "") == Position(0, "")
  {
    R5Wf();
  }

  ghost method RStep28()
    ensures Wf(R5)
    ensures AddIndex(R5, 2, 0) == R5
  {
    R5Wf();
  }

  ghost method RStep29()
    ensures Wf(R5)
    ensures AtNode(R5, 0, 'a', "a", 0) == Success(Answer(R5, true, 0))
  {
    R5Wf();
    RStep28();
  }

  ghost method RStep30()
    ensures Wf(R5)
    ensures TestAndSplit(R5, 0, "", 'a', "a", 0) == Success(Answer(R5, true, 0))
  {
    R5Wf();
    RStep27();
    RStep29();
  }

  ghost method RStep31()
    ensures Wf(R3)
    ensures Round(R3, 0, "a", 0, 0, 'a', "a", 0) == Success((Answer(R5, true, 0), Position(0, "")))
    ensures Wf(R5)
  {
    RStep19();
    RStep25();
    RStep26();
    RStep30();
  }

  ghost method RStep32()
    ensures Wf(R5)
    ensures UpdateLoop(R5, 0, "", 0, true, 0, 'a', "a", 0, 2) == Success((R5, Position(0, "")))
  {
    R5Wf();
  }

  ghost method RStep33()
    ensures Wf(R3)
    ensures UpdateLoop(R3, 0, "a", 0, false, 0, 'a', "a", 0, 3) == Success((R5, Position(0, "")))
    ensures Wf(R5)
  {
    RStep19();
    RStep31();
    RStep32();
  }

  ghost method RStep34()
    ensures Wf(R2)
    ensures Update(R2, 0, "a", "a", 0, 3) == Success((R5, Position(0, "")))
    ensures Wf(R5)
  {
    R2Wf();
    RStep21();
    RStep33();
  }

  ghost method RStep36()
    ensures Wf(R5)
    ensures AddWordFrom(R5, "aa", 2, 0, "", 0) == Success((R5, 0))
  {
    R5Wf();
  }

  ghost method RStep37()
    ensures Wf(R2)
    ensures AddWordFrom(R2, "aa", 1, 0, "", 0) == Success((R5, 0))
    ensures Wf(R5)
  {
    R2Wf();
    RStep34();
    RStep27();
    RStep36();
  }

  ghost method RStep38()
    ensures Wf(R0)
    ensures AddWordFrom(R0, "aa", 0, 0, "", 0) == Success((R5, 0))
    ensures Wf(R5)
  {
    R0Wf();
    RStep15();
    RStep8();
    RStep37();
  }

  ghost method RStep39()
    ensures Wf(R5)
    ensures LinkUnlessRoot(R5, 2, 0) == R6
    ensures Wf(R6)
  {
    R5Wf();
    assert LinkUnlessRoot(R5, 2, 0) == SetNode(R5, 2, SetSuffix(R5.nodes[2], 0));
    RSame39();
  }

  ghost method RStep40()
    ensures Wf(R0)
    ensures AddWord(R0, "aa", 0) == Success(R6)
    ensures Wf(R6)
  {
    R0Wf();
    RStep38();
    RStep39();
  }

  ghost method RStep41()
    ensures Wf(R7)
    ensures Canonize(R7, 0, "") == Position(0, "")
  {
    R7Wf();
  }

  ghost method RStep42()
    ensures Wf(R7)
    ensures AtNode(R7, 0, 'a', "aab", 1) == Success(Answer(R7, true, 0))
  {
    R7Wf();
  }

  ghost method RStep43()
    ensures Wf(R7)
    ensures TestAndSplit(R7, 0, "", 'a', "aab", 1) == Success(Answer(R7, true, 0))
  {
    R7Wf();
    RStep41();
    RStep42();
  }

  ghost method RStep44()
    ensures Wf(R7)
    ensures UpdateLoop(R7, 0, "a", 0, true, 0, 'a', "aab", 1, 4) == Success((R7, Position(0, "a")))
  {
    R7Wf();
  }

  ghost method RStep45()
    ensures Wf(R7)
    ensures Update(R7, 0, "a", "aab", 1, 4) == Success((R7, Position(0, "a")))
  {
    R7Wf();
    RStep43();
    RStep44();
  }

  ghost method RStep46()
    ensures Wf(R7)
    ensures Canonize(R7, 0, "a") == Position(2, "")
  {
    R7Wf();
  }

  ghost method RStep47()
    ensures Wf(R7)
    ensures Canonize(R7, 2, "") == Position(2, "")
  {
    R7Wf();
  }

  ghost method RStep48()
    ensures Wf(R7)
    ensures AtNode(R7, 2, 'a', "ab", 1) == Success(Answer(R7, true, 2))
  {
    R7Wf();
  }

  ghost method RStep49()
    ensures Wf(R7)
    ensures TestAndSplit(R7, 2, "", 'a', "ab", 1) == Success(Answer(R7, true, 2))
  {
    R7Wf();
    RStep47();
    RStep48();
  }

  ghost method RStep50()
    ensures Wf(R7)
    ensures UpdateLoop(R7, 2, "a", 2, true, 0, 'a', "ab", 1, 4) == Success((R7, Position(2, "a")))
  {
    R7Wf();
  }

  ghost method RStep51()
    ensures Wf(R7)
    ensures Update(R7, 2, "a", "ab", 1, 4) == Success((R7, Position(2, "a")))
  {
    R7Wf();
    RStep49();
    RStep50();
  }

  ghost method RStep52()
    ensures Wf(R7)
    ensures Canonize(R7, 2, "a") == Position(1, "")
  {
    R7Wf();
  }

  ghost method RStep53()
    ensures Wf(R7)
    ensures Canonize(R7, 1, "") == Position(1, "")
  {
    R7Wf();
  }

  ghost method RStep54()
    ensures Wf(R7)
    ensures AtNode(R7, 1, 'b', "b", 1) == Success(Answer(R7, false, 1))
  {
    R7Wf();
  }

  ghost method RStep55()
    ensures Wf(R7)
    ensures TestAndSplit(R7, 1, "", 'b', "b", 1) == Success(Answer(R7, false, 1))
  {
    R7Wf();
    RStep53();
    RStep54();
  }

  ghost method RStep56()
    ensures Wf(R7)
    ensures AttachLeaf(R7, 1, 'b', "b", 1) == (R8, 3)
    ensures Wf(R8)
  {
    R7Wf();
    assert AttachLeaf(R7, 1, 'b', "b", 1) == (Tree(R7.nodes[1 := AddEdge(R7.nodes[1], 'b', 2)] + [Node({1}, map[], -1)], R7.edges + [Edge("b", 3)], R7.last, R7.root, R7.activeLeaf), 3);
    RSame56();
  }

  ghost method RStep57()
    ensures Wf(R8)
    ensures LinkUnlessRoot(R8, 0, 3) == R8
  {
    RStep56();
  }

  ghost method RStep58()
    ensures Wf(R9)
    ensures LinkUnlessRoot(R9, 0, 1) == R9
  {
    R9Wf();
  }

  ghost method RStep59()
    ensures Wf(R7)
    ensures Grow(R7, 1, 0, 'b', "b", 1) == R9
    ensures Wf(R9)
  {
    R7Wf();
    RStep56();
    RStep57();
    RStep58();
  }

  ghost method RStep60()
    ensures Wf(R9)
    ensures Canonize(R9, 2, "") == Position(2, "")
  {
    R9Wf();
  }

  ghost method RStep61()
    ensures Wf(R9)
    ensures NextPosition(R9, 1, "b") == Position(2, "b")
  {
    R9Wf();
    RStep60();
  }

  ghost method RStep63()
    ensures Wf(R9)
    ensures AtNode(R9, 2, 'b', "b", 1) == Success(Answer(R9, false, 2))
  {
    R9Wf();
  }

  ghost method RStep64()
    ensures Wf(R9)
    ensures TestAndSplit(R9, 2, "", 'b', "b", 1) == Success(Answer(R9, false, 2))
  {
    R9Wf();
    RStep60();
    RStep63();
  }

  ghost method RStep65()
    ensures Wf(R7)
    ensures Round(R7, 1, "b", 1, 0, 'b', "b", 1) == Success((Answer(R9, false, 2), Position(2, "b")))
    ensures Wf(R9)
  {
    R7Wf();
    RStep59();
    RStep61();
    RStep64();
  }

  ghost method RStep66()
    ensures Wf(R9)
    ensures AttachLeaf(R9, 2, 'b', "b", 1) == (R10, 4)
    ensures Wf(R10)
  {
    R9Wf();
    assert AttachLeaf(R9, 2, 'b', "b", 1) == (Tree(R9.nodes[2 := AddEdge(R9.nodes[2], 'b', 3)] + [Node({1}, map[], -1)], R9.edges + [Edge("b", 4)], R9.last, R9.root, R9.activeLeaf), 4);
    RSame66();
  }

  ghost method RStep67()
    ensures Wf(R10)
    ensures LinkUnlessRoot(R10, 3, 4) == R11
    ensures Wf(R11)
  {
    RStep66();
    assert LinkUnlessRoot(R10, 3, 4) == SetNode(R10, 3, SetSuffix(R10.nodes[3], 4));
    RSame67();
  }

  ghost method RStep68()
    ensures Wf(R12)
    ensures LinkUnlessRoot(R12, 1, 2) == R12
  {
    R12Wf();
  }

  ghost method RStep69()
    ensures Wf(R9)
    ensures Grow(R9, 2, 1, 'b', "b", 1) == R12
    ensures Wf(R12)
  {
    R9Wf();
    RStep66();
    RStep67();
    RStep68();
  }

  ghost method RStep70()
    ensures Wf(R12)
    ensures Canonize(R12, 0, "") == Position(0, "")
  {
    R12Wf();
  }

  ghost method RStep71()
    ensures Wf(R12)
    ensures NextPosition(R12, 2, "b") == Position(0, "b")
  {
    R12Wf();
    RStep70();
  }

  ghost method RStep73()
    ensures Wf(R12)
    ensures AtNode(R12, 0, 'b', "b", 1) == Success(Answer(R12, false, 0))
  {
    R12Wf();
  }

  ghost method RStep74()
    ensures Wf(R12)
    ensures TestAndSplit(R12, 0, "", 'b', "b", 1) == Success(Answer(R12, false, 0))
  {
    R12Wf();
    RStep70();
    RStep73();
  }

  ghost method RStep75()
    ensures Wf(R9)
    ensures Round(R9, 2, "b", 2, 1, 'b', "b", 1) == Success((Answer(R12, false, 0), Position(0, "b")))
    ensures Wf(R12)
  {
    R9Wf();
    RStep69();
    RStep71();
    RStep74();
  }

  ghost method RStep76()
    ensures Wf(R12)
    ensures AttachLeaf(R12, 0, 'b', "b", 1) == (R13, 5)
    ensures Wf(R13)
  {
    R12Wf();
    assert AttachLeaf(R12, 0, 'b', "b", 1) == (Tree(R12.nodes[0 := AddEdge(R12.nodes[0], 'b', 4)] + [Node({1}, map[], -1)], R12.edges + [Edge("b", 5)], R12.last, R12.root, R12.activeLeaf), 5);
    RSame76();
  }

  ghost method RStep77()
    ensures Wf(R13)
    ensures LinkUnlessRoot(R13, 4, 5) == R14
    ensures Wf(R14)
  {
    RStep76();
    assert LinkUnlessRoot(R13, 4, 5) == SetNode(R13, 4, SetSuffix(R13.nodes[4], 5));
    RSame77();
  }

  ghost method RStep78()
    ensures Wf(R15)
    ensures LinkUnlessRoot(R15, 2, 0) == R15
  {
    R15Wf();
  }

  ghost method RStep79()
    ensures Wf(R12)
    ensures Grow(R12, 0, 2, 'b', "b", 1) == R15
    ensures Wf(R15)
  {
    R12Wf();
    RStep76();
    RStep77();
    RStep78();
  }

  ghost method RStep80()
    ensures Wf(R15)
    ensures NextPosition(R15, 0, "b") == Position(0, "")
  {
    R15Wf();
  }

  ghost method RStep81()
    ensures Wf(R15)
    ensures Canonize(R15, 0, "") == Position(0, "")
  {
    R15Wf();
  }

  ghost method RStep82()
    ensures Wf(R15)
    ensures AddIndex(R15, 5, 1) == R15
  {
    R15Wf();
  }

  ghost method RStep83()
    ensures Wf(R15)
    ensures AtNode(R15, 0, 'b', "b", 1) == Success(Answer(R15, true, 0))
  {
    R15Wf();
    RStep82();
  }

  ghost method RStep84()
    ensures Wf(R15)
    ensures TestAndSplit(R15, 0, "", 'b', "b", 1) == Success(Answer(R15, true, 0))
  {
    R15Wf();
    RStep81();
    RStep83();
  }

  ghost method RStep85()
    ensures Wf(R12)
    ensures Round(R12, 0, "b", 0, 2, 'b', "b", 1) == Success((Answer(R15, true, 0), Position(0, "")))
    ensures Wf(R15)
  {
    R12Wf();
    RStep79();
    RStep80();
    RStep84();
  }

  ghost method RStep86()
    ensures Wf(R15)
    ensures UpdateLoop(R15, 0, "", 0, true, 0, 'b', "b", 1, 1) == Success((R15, Position(0, "")))
  {
    R15Wf();
  }

  ghost method RStep87()
    ensures Wf(R12)
    ensures UpdateLoop(R12, 0, "b", 0, false, 2, 'b', "b", 1, 2) == Success((R15, Position(0, "")))
    ensures Wf(R15)
  {
    R12Wf();
    RStep85();
    RStep86();
  }

  ghost method RStep88()
    ensures Wf(R9)
    ensures UpdateLoop(R9, 2, "b", 2, false, 1, 'b', "b", 1, 3) == Success((R15, Position(0, "")))
    ensures Wf(R15)
  {
    R9Wf();
    RStep75();
    RStep87();
  }

  ghost method RStep89()
    ensures Wf(R7)
    ensures UpdateLoop(R7, 1, "b", 1, false, 0, 'b', "b", 1, 4) == Success((R15, Position(0, "")))
    ensures Wf(R15)
  {
    R7Wf();
    RStep65();
    RStep88();
  }

  ghost method RStep90()
    ensures Wf(R7)
    ensures Update(R7, 1, "b", "b", 1, 4) == Success((R15, Position(0, "")))
    ensures Wf(R15)
  {
    R7Wf();
    RStep55();
    RStep89();
  }

  ghost method RStep92()
    ensures Wf(R15)
    ensures AddWordFrom(R15, "aab", 3, 0, "", 1) == Success((R15, 0))
  {
    R15Wf();
  }

  ghost method RStep93()
    ensures Wf(R7)
    ensures AddWordFrom(R7, "aab", 2, 1, "", 1) == Success((R15, 0))
    ensures Wf(R15)
  {
    R7Wf();
    RStep90();
    RStep81();
    RStep92();
  }

  ghost method RStep94()
    ensures Wf(R7)
    ensures AddWordFrom(R7, "aab", 1, 2, "", 1) == Success((R15, 0))
    ensures Wf(R15)
  {
    R7Wf();
    RStep51();
    RStep52();
    RStep93();
  }

  ghost method RStep95()
    ensures Wf(R7)
    ensures AddWordFrom(R7, "aab", 0, 0, "", 1) == Success((R15, 0))
    ensures Wf(R15)
  {
    R7Wf();
    RStep45();
    RStep46();
    RStep94();
  }

  ghost method RStep96()
    ensures Wf(R15)
    ensures LinkUnlessRoot(R15, 5, 0) == R16
    ensures Wf(R16)
  {
    R15Wf();
    assert LinkUnlessRoot(R15, 5, 0) == SetNode(R15, 5, SetSuffix(R15.nodes[5], 0));
    RSame96();
  }

  ghost method RStep97()
    ensures Wf(R6)
    ensures AddWord(R6, "aab", 1) == Success(R16)
    ensures Wf(R16)
  {
    RStep39();
    RStep95();
    RStep96();
  }

  ghost method RSame3()
    ensures (Tree(R0.nodes[0 := AddEdge(R0.nodes[0], 'a', 0)] + [Node({0}, map[], -1)], R0.edges + [Edge("aa", 1)], R0.last, R0.root, R0.activeLeaf), 1) == (R1, 1)
  {
    var a := (Tree(R0.nodes[0 := AddEdge(R0.nodes[0], 'a', 0)] + [Node({0}, map[], -1)], R0.edges + [Edge("aa", 1)], R0.last, R0.root, R0.activeLeaf), 1);
    assert a.0.nodes[0] == R1.nodes[0];
    assert a.0.nodes[1] == R1.nodes[1];
    assert a.0.nodes == R1.nodes;
    assert a.0.edges == R1.edges;
  }

  ghost method RSame23()
    ensures SetNode(R3, 1, SetSuffix(R3.nodes[1], 2)) == R4
  {
    var a := SetNode(R3, 1, SetSuffix(R3.nodes[1], 2));
    assert a.nodes[0] == R4.nodes[0];
    assert a.nodes[1] == R4.nodes[1];
    assert a.nodes[2] == R4.nodes[2];
    assert a.nodes == R4.nodes;
    assert a.edges == R4.edges;
  }

  ghost method RSame39()
    ensures SetNode(R5, 2, SetSuffix(R5.nodes[2], 0)) == R6
  {
    var a := SetNode(R5, 2, SetSuffix(R5.nodes[2], 0));
    assert a.nodes[0] == R6.nodes[0];
    assert a.nodes[1] == R6.nodes[1];
    assert a.nodes[2] == R6.nodes[2];
    assert a.nodes == R6.nodes;
    assert a.edges == R6.edges;
  }

  ghost method RSame56()
    ensures (Tree(R7.nodes[1 := AddEdge(R7.nodes[1], 'b', 2)] + [Node({1}, map[], -1)], R7.edges + [Edge("b", 3)], R7.last, R7.root, R7.activeLeaf), 3) == (R8, 3)
  {
    var a := (Tree(R7.nodes[1 := AddEdge(R7.nodes[1], 'b', 2)] + [Node({1}, map[], -1)], R7.edges + [Edge("b", 3)], R7.last, R7.root, R7.activeLeaf), 3);
    assert a.0.nodes[0] == R8.nodes[0];
    assert a.0.nodes[1] == R8.nodes[1];
    assert a.0.nodes[2] == R8.nodes[2];
    assert a.0.nodes[3] == R8.nodes[3];
    assert a.0.nodes == R8.nodes;
    assert a.0.edges == R8.edges;
  }

  ghost method RSame66()
    ensures (Tree(R9.nodes[2 := AddEdge(R9.nodes[2], 'b', 3)] + [Node({1}, map[], -1)], R9.edges + [Edge("b", 4)], R9.last, R9.root, R9.activeLeaf), 4) == (R10, 4)
  {
    var a := (Tree(R9.nodes[2 := AddEdge(R9.nodes[2], 'b', 3)] + [Node({1}, map[], -1)], R9.edges + [Edge("b", 4)], R9.last, R9.root, R9.activeLeaf), 4);
    assert a.0.nodes[0] == R10.nodes[0];
    assert a.0.nodes[1] == R10.nodes[1];
    assert a.0.nodes[2] == R10.nodes[2];
    assert a.0.nodes[3] == R10.nodes[3];
    assert a.0.nodes[4] == R10.nodes[4];
    assert a.0.nodes == R10.nodes;
    assert a.0.edges == R10.edges;
  }

  ghost method RSame67()
    ensures SetNode(R10, 3, SetSuffix(R10.nodes[3], 4)) == R11
  {
    var a := SetNode(R10, 3, SetSuffix(R10.nodes[3], 4));
    assert a.nodes[0] == R11.nodes[0];
    assert a.nodes[1] == R11.nodes[1];
    assert a.nodes[2] == R11.nodes[2];
    assert a.nodes[3] == R11.nodes[3];
    assert a.nodes[4] == R11.nodes[4];
    assert a.nodes == R11.nodes;
    assert a.edges == R11.edges;
  }

  ghost method RSame76()
    ensures (Tree(R12.nodes[0 := AddEdge(R12.nodes[0], 'b', 4)] + [Node({1}, map[], -1)], R12.edges + [Edge("b", 5)], R12.last, R12.root, R12.activeLeaf), 5) == (R13, 5)
  {
    var a := (Tree(R12.nodes[0 := AddEdge(R12.nodes[0], 'b', 4)] + [Node({1}, map[], -1)], R12.edges + [Edge("b", 5)], R12.last, R12.root, R12.activeLeaf), 5);
    assert a.0.nodes[0] == R13.nodes[0];
    assert a.0.nodes[1] == R13.nodes[1];
    assert a.0.nodes[2] == R13.nodes[2];
    assert a.0.nodes[3] == R13.nodes[3];
    assert a.0.nodes[4] == R13.nodes[4];
    assert a.0.nodes[5] == R13.nodes[5];
    assert a.0.nodes == R13.nodes;
    assert a.0.edges == R13.edges;
  }

  ghost method RSame77()
    ensures SetNode(R13, 4, SetSuffix(R13.nodes[4], 5)) == R14
  {
    var a := SetNode(R13, 4, SetSuffix(R13.nodes[4], 5));
    assert a.nodes[0] == R14.nodes[0];
    assert a.nodes[1] == R14.nodes[1];
    assert a.nodes[2] == R14.nodes[2];
    assert a.nodes[3] == R14.nodes[3];
    assert a.nodes[4] == R14.nodes[4];
    assert a.nodes[5] == R14.nodes[5];
    assert a.nodes == R14.nodes;
    assert a.edges == R14.edges;
  }

  ghost method RSame96()
    ensures SetNode(R15, 5, SetSuffix(R15.nodes[5], 0)) == R16
  {
    var a := SetNode(R15, 5, SetSuffix(R15.nodes[5], 0));
    assert a.nodes[0] == R16.nodes[0];
    assert a.nodes[1] == R16.nodes[1];
    assert a.nodes[2] == R16.nodes[2];
    assert a.nodes[3] == R16.nodes[3];
    assert a.nodes[4] == R16.nodes[4];
    assert a.nodes[5] == R16.nodes[5];
    assert a.nodes == R16.nodes;
    assert a.edges == R16.edges;
  }

  // C0: `EmptyTree()`
  const C0: Tree := Tree([Node({}, map[], -1)], [], 0, 0, 0)

  // C1: built by `AttachLeaf(C0, 0, 'c', "cacao", 0)` in `CStep3`
  const C1: Tree := Tree([Node({}, map['c' := 0], -1), Node({0}, map[], -1)], [Edge("cacao", 1)], 0, 0, 0)

  // C2: `C1` with `activeLeaf := 1`, made in `C2Wf`
  const C2: Tree := Tree([Node({}, map['c' := 0], -1), Node({0}, map[], -1)], [Edge("cacao", 1)], 0, 0, 1)

  // C3: built by `AttachLeaf(C2, 0, 'a', "acao", 0)` in `CStep21`
  const C3: Tree := Tree([Node({}, map['a' := 1, 'c' := 0], -1), Node({0}, map[], -1), Node({0}, map[], -1)], [Edge("cacao", 1), Edge("acao", 2)], 0, 0, 1)

  // C4: built by `LinkUnlessRoot(C3, 1, 2)` in `CStep22`
  const C4: Tree := Tree([Node({}, map['a' := 1, 'c' := 0], -1), Node({0}, map[], 2), Node({0}, map[], -1)], [Edge("cacao", 1), Edge("acao", 2)], 0, 0, 1)

  // C5: `C4` with `activeLeaf := 2`, made in `C5Wf`
  const C5: Tree := Tree([Node({}, map['a' := 1, 'c' := 0], -1), Node({0}, map[], 2), Node({0}, map[], -1)], [Edge("cacao", 1), Edge("acao", 2)], 0, 0, 2)

  // C6: built by `SplitArena(C5, 0, 'c', "ca", {})` in `CStep51`
  const C6: Tree := Tree([Node({}, map['a' := 1, 'c' := 2], -1), Node({0}, map[], 2), Node({0}, map[], -1), Node({}, map['c' := 0], -1)], [Edge("cao", 1), Edge("acao", 2), Edge("ca", 3)], 0, 0, 2)

  // C7: built by `AttachLeaf(C6, 3, 'o', "o", 0)` in `CStep55`
  const C7: Tree := Tree([Node({}, map['a' := 1, 'c' := 2], -1), Node({0}, map[], 2), Node({0}, map[], -1), Node({}, map['c' := 0, 'o' := 3], -1), Node({0}, map[], -1)], [Edge("cao", 1), Edge("acao", 2), Edge("ca", 3), Edge("o", 4)], 0, 0, 2)

  // C8: built by `LinkUnlessRoot(C7, 2, 4)` in `CStep56`
  const C8: Tree := Tree([Node({}, map['a' := 1, 'c' := 2], -1), Node({0}, map[], 2), Node({0}, map[], 4), Node({}, map['c' := 0, 'o' := 3], -1), Node({0}, map[], -1)], [Edge("cao", 1), Edge("acao", 2), Edge("ca", 3), Edge("o", 4)], 0, 0, 2)

  // C9: `C8` with `activeLeaf := 4`, made in `C9Wf`
  const C9: Tree := Tree([Node({}, map['a' := 1, 'c' := 2], -1), Node({0}, map[], 2), Node({0}, map[], 4), Node({}, map['c' := 0, 'o' := 3], -1), Node({0}, map[], -1)], [Edge("cao", 1), Edge("acao", 2), Edge("ca", 3), Edge("o", 4)], 0, 0, 4)

  // C10: built by `SplitArena(C9, 0, 'a', "a", {})` in `CStep61`
  const C10: Tree := Tree([Node({}, map['a' := 4, 'c' := 2], -1), Node({0}, map[], 2), Node({0}, map[], 4), Node({}, map['c' := 0, 'o' := 3], -1), Node({0}, map[], -1), Node({}, map['c' := 1], -1)], [Edge("cao", 1), Edge("cao", 2), Edge("ca", 3), Edge("o", 4), Edge("a", 5)], 0, 0, 4)

  // C11: built by `AttachLeaf(C10, 5, 'o', "o", 0)` in `CStep66`
  const C11: Tree := Tree([Node({}, map['a' := 4, 'c' := 2], -1), Node({0}, map[], 2), Node({0}, map[], 4), Node({}, map['c' := 0, 'o' := 3], -1), Node({0}, map[], -1), Node({}, map['c' := 1, 'o' := 5], -1), Node({0}, map[], -1)], [Edge("cao", 1), Edge("cao", 2), Edge("ca", 3), Edge("o", 4), Edge("a", 5), Edge("o", 6)], 0, 0, 4)

  // C12: built by `LinkUnlessRoot(C11, 4, 6)` in `CStep67`
  const C12: Tree := Tree([Node({}, map['a' := 4, 'c' := 2], -1), Node({0}, map[], 2), Node({0}, map[], 4), Node({}, map['c' := 0, 'o' := 3], -1), Node({0}, map[], 6), Node({}, map['c' := 1, 'o' := 5], -1), Node({0}, map[], -1)], [Edge("cao", 1), Edge("cao", 2), Edge("ca", 3), Edge("o", 4), Edge("a", 5), Edge("o", 6)], 0, 0, 4)

  // C13: `C12` with `activeLeaf := 6`, made in `C13Wf`
  const C13: Tree := Tree([Node({}, map['a' := 4, 'c' := 2], -1), Node({0}, map[], 2), Node({0}, map[], 4), Node({}, map['c' := 0, 'o' := 3], -1), Node({0}, map[], 6), Node({}, map['c' := 1, 'o' := 5], -1), Node({0}, map[], -1)], [Edge("cao", 1), Edge("cao", 2), Edge("ca", 3), Edge("o", 4), Edge("a", 5), Edge("o", 6)], 0, 0, 6)

  // C14: built by `LinkUnlessRoot(C13, 3, 5)` in `CStep68`
  const C14: Tree := Tree([Node({}, map['a' := 4, 'c' := 2], -1), Node({0}, map[], 2), Node({0}, map[], 4), Node({}, map['c' := 0, 'o' := 3], 5), Node({0}, map[], 6), Node({}, map['c' := 1, 'o' := 5], -1), Node({0}, map[], -1)], [Edge("cao", 1), Edge("cao", 2), Edge("ca", 3), Edge("o", 4), Edge("a", 5), Edge("o", 6)], 0, 0, 6)

  // C15: built by `AttachLeaf(C14, 0, 'o', "o", 0)` in `CStep75`
  const C15: Tree := Tree([Node({}, map['a' := 4, 'c' := 2, 'o' := 6], -1), Node({0}, map[], 2), Node({0}, map[], 4), Node({}, map['c' := 0, 'o' := 3], 5), Node({0}, map[], 6), Node({}, map['c' := 1, 'o' := 5], -1), Node({0}, map[], -1), Node({0}, map[], -1)], [Edge("cao", 1), Edge("cao", 2), Edge("ca", 3), Edge("o", 4), Edge("a", 5), Edge("o", 6), Edge("o", 7)], 0, 0, 6)

  // C16: built by `LinkUnlessRoot(C15, 6, 7)` in `CStep76`
  const C16: Tree := Tree([Node({}, map['a' := 4, 'c' := 2, 'o' := 6], -1), Node({0}, map[], 2), Node({0}, map[], 4), Node({}, map['c' := 0, 'o' := 3], 5), Node({0}, map[], 6), Node({}, map['c' := 1, 'o' := 5], -1), Node({0}, map[], 7), Node({0}, map[], -1)], [Edge("cao", 1), Edge("cao", 2), Edge("ca", 3), Edge("o", 4), Edge("a", 5), Edge("o", 6), Edge("o", 7)], 0, 0, 6)

  // C17: `C16` with `activeLeaf := 7`, made in `C17Wf`
  const C17: Tree := Tree([Node({}, map['a' := 4, 'c' := 2, 'o' := 6], -1), Node({0}, map[], 2), Node({0}, map[], 4), Node({}, map['c' := 0, 'o' := 3], 5), Node({0}, map[], 6), Node({}, map['c' := 1, 'o' := 5], -1), Node({0}, map[], 7), Node({0}, map[], -1)], [Edge("cao", 1), Edge("cao", 2), Edge("ca", 3), Edge("o", 4), Edge("a", 5), Edge("o", 6), Edge("o", 7)], 0, 0, 7)

  // C18: built by `LinkUnlessRoot(C17, 5, 0)` in `CStep77`
  const C18: Tree := Tree([Node({}, map['a' := 4, 'c' := 2, 'o' := 6], -1), Node({0}, map[], 2), Node({0}, map[], 4), Node({}, map['c' := 0, 'o' := 3], 5), Node({0}, map[], 6), Node({}, map['c' := 1, 'o' := 5], 0), Node({0}, map[], 7), Node({0}, map[], -1)], [Edge("cao", 1), Edge("cao", 2), Edge("ca", 3), Edge("o", 4), Edge("a", 5), Edge("o", 6), Edge("o", 7)], 0, 0, 7)

  // C19: built by `LinkUnlessRoot(C18, 7, 0)` in `CStep98`; also the result of `AddWord(C0, "cacao", 0)` (CStep99)
  const C19: Tree := Tree([Node({}, map['a' := 4, 'c' := 2, 'o' := 6], -1), Node({0}, map[], 2), Node({0}, map[], 4), Node({}, map['c' := 0, 'o' := 3], 5), Node({0}, map[], 6), Node({}, map['c' := 1, 'o' := 5], 0), Node({0}, map[], 7), Node({0}, map[], 0)], [Edge("cao", 1), Edge("cao", 2), Edge("ca", 3), Edge("o", 4), Edge("a", 5), Edge("o", 6), Edge("o", 7)], 0, 0, 7)

  // C20: built by `TakeChild(C19, 3, 0, 6)` in `CStep101`
  const C20: Tree := Tree([Node({}, map['a' := 4, 'c' := 2, 'o' := 6], -1), Node({0}, map[], 2), Node({0}, map[], 4), Node({0}, map['c' := 0, 'o' := 3], 5), Node({0}, map[], 6), Node({}, map['c' := 1, 'o' := 5], 0), Node({0}, map[], 7), Node({0}, map[], 0)], [Edge("cao", 1), Edge("cao", 2), Edge("ca", 3), Edge("o", 4), Edge("a", 5), Edge("o", 6), Edge("o", 7)], 0, 0, 7)

  // C21: built by `TakeChild(C19, 0, 2, 7)` in `CStep113`
  const C21: Tree := Tree([Node({0}, map['a' := 4, 'c' := 2, 'o' := 6], -1), Node({0}, map[], 2), Node({0}, map[], 4), Node({0}, map['c' := 0, 'o' := 3], 5), Node({0}, map[], 6), Node({}, map['c' := 1, 'o' := 5], 0), Node({0}, map[], 7), Node({0}, map[], 0)], [Edge("cao", 1), Edge("cao", 2), Edge("ca", 3), Edge("o", 4), Edge("a", 5), Edge("o", 6), Edge("o", 7)], 0, 0, 7)

  // C22: built by `TakeChild(C21, 5, 1, 6)` in `CStep115`; also the result of `Flush(C19)` (CStep139)
  const C22: Tree := Tree([Node({0}, map['a' := 4, 'c' := 2, 'o' := 6], -1), Node({0}, map[], 2), Node({0}, map[], 4), Node({0}, map['c' := 0, 'o' := 3], 5), Node({0}, map[], 6), Node({0}, map['c' := 1, 'o' := 5], 0), Node({0}, map[], 7), Node({0}, map[], 0)], [Edge("cao", 1), Edge("cao", 2), Edge("ca", 3), Edge("o", 4), Edge("a", 5), Edge("o", 6), Edge("o", 7)], 0, 0, 7)

  // C23: `C19` with `last := 1, activeLeaf := 0`, made in `C23Wf`
  const C23: Tree := Tree([Node({}, map['a' := 4, 'c' := 2, 'o' := 6], -1), Node({0}, map[], 2), Node({0}, map[], 4), Node({}, map['c' := 0, 'o' := 3], 5), Node({0}, map[], 6), Node({}, map['c' := 1, 'o' := 5], 0), Node({0}, map[], 7), Node({0}, map[], 0)], [Edge("cao", 1), Edge("cao", 2), Edge("ca", 3), Edge("o", 4), Edge("a", 5), Edge("o", 6), Edge("o", 7)], 1, 0, 0)

  // C24: built by `SetNode(C23, 1, AddIdx(C23.nodes[1], 1))` in `CStep197`
  const C24: Tree := Tree([Node({}, map['a' := 4, 'c' := 2, 'o' := 6], -1), Node({0, 1}, map[], 2), Node({0}, map[], 4), Node({}, map['c' := 0, 'o' := 3], 5), Node({0}, map[], 6), Node({}, map['c' := 1, 'o' := 5], 0), Node({0}, map[], 7), Node({0}, map[], 0)], [Edge("cao", 1), Edge("cao", 2), Edge("ca", 3), Edge("o", 4), Edge("a", 5), Edge("o", 6), Edge("o", 7)], 1, 0, 0)

  // C25: built by `SetNode(C24, 2, AddIdx(C24.nodes[2], 1))` in `CStep198`
  const C25: Tree := Tree([Node({}, map['a' := 4, 'c' := 2, 'o' := 6], -1), Node({0, 1}, map[], 2), Node({0, 1}, map[], 4), Node({}, map['c' := 0, 'o' := 3], 5), Node({0}, map[], 6), Node({}, map['c' := 1, 'o' := 5], 0), Node({0}, map[], 7), Node({0}, map[], 0)], [Edge("cao", 1), Edge("cao", 2), Edge("ca", 3), Edge("o", 4), Edge("a", 5), Edge("o", 6), Edge("o", 7)], 1, 0, 0)

  // C26: built by `SetNode(C25, 4, AddIdx(C25.nodes[4], 1))` in `CStep199`
  const C26: Tree := Tree([Node({}, map['a' := 4, 'c' := 2, 'o' := 6], -1), Node({0, 1}, map[], 2), Node({0, 1}, map[], 4), Node({}, map['c' := 0, 'o' := 3], 5), Node({0, 1}, map[], 6), Node({}, map['c' := 1, 'o' := 5], 0), Node({0}, map[], 7), Node({0}, map[], 0)], [Edge("cao", 1), Edge("cao", 2), Edge("ca", 3), Edge("o", 4), Edge("a", 5), Edge("o", 6), Edge("o", 7)], 1, 0, 0)

  // C27: built by `SetNode(C26, 6, AddIdx(C26.nodes[6], 1))` in `CStep200`
  const C27: Tree := Tree([Node({}, map['a' := 4, 'c' := 2, 'o' := 6], -1), Node({0, 1}, map[], 2), Node({0, 1}, map[], 4), Node({}, map['c' := 0, 'o' := 3], 5), Node({0, 1}, map[], 6), Node({}, map['c' := 1, 'o' := 5], 0), Node({0, 1}, map[], 7), Node({0}, map[], 0)], [Edge("cao", 1), Edge("cao", 2), Edge("ca", 3), Edge("o", 4), Edge("a", 5), Edge("o", 6), Edge("o", 7)], 1, 0, 0)

  // C28: built by `SetNode(C27, 7, AddIdx(C27.nodes[7], 1))` in `CStep201`
  const C28: Tree := Tree([Node({}, map['a' := 4, 'c' := 2, 'o' := 6], -1), Node({0, 1}, map[], 2), Node({0, 1}, map[], 4), Node({}, map['c' := 0, 'o' := 3], 5), Node({0, 1}, map[], 6), Node({}, map['c' := 1, 'o' := 5], 0), Node({0, 1}, map[], 7), Node({0, 1}, map[], 0)], [Edge("cao", 1), Edge("cao", 2), Edge("ca", 3), Edge("o", 4), Edge("a", 5), Edge("o", 6), Edge("o", 7)], 1, 0, 0)

  // C29: built by `SetNode(C28, 0, AddIdx(C28.nodes[0], 1))` in `CStep202`; also the result of `AddWord(C19, "cacao", 1)` (CStep236)
  const C29: Tree := Tree([Node({1}, map['a' := 4, 'c' := 2, 'o' := 6], -1), Node({0, 1}, map[], 2), Node({0, 1}, map[], 4), Node({}, map['c' := 0, 'o' := 3], 5), Node({0, 1}, map[], 6), Node({}, map['c' := 1, 'o' := 5], 0), Node({0, 1}, map[], 7), Node({0, 1}, map[], 0)], [Edge("cao", 1), Edge("cao", 2), Edge("ca", 3), Edge("o", 4), Edge("a", 5), Edge("o", 6), Edge("o", 7)], 1, 0, 0)

  // C30: built by `TakeChild(C29, 3, 0, 6)` in `CStep238`
  const C30: Tree := Tree([Node({1}, map['a' := 4, 'c' := 2, 'o' := 6], -1), Node({0, 1}, map[], 2), Node({0, 1}, map[], 4), Node({0, 1}, map['c' := 0, 'o' := 3], 5), Node({0, 1}, map[], 6), Node({}, map['c' := 1, 'o' := 5], 0), Node({0, 1}, map[], 7), Node({0, 1}, map[], 0)], [Edge("cao", 1), Edge("cao", 2), Edge("ca", 3), Edge("o", 4), Edge("a", 5), Edge("o", 6), Edge("o", 7)], 1, 0, 0)

  // C31: built by `TakeChild(C29, 0, 2, 7)` in `CStep250`
  const C31: Tree := Tree([Node({0, 1}, map['a' := 4, 'c' := 2, 'o' := 6], -1), Node({0, 1}, map[], 2), Node({0, 1}, map[], 4), Node({0, 1}, map['c' := 0, 'o' := 3], 5), Node({0, 1}, map[], 6), Node({}, map['c' := 1, 'o' := 5], 0), Node({0, 1}, map[], 7), Node({0, 1}, map[], 0)], [Edge("cao", 1), Edge("cao", 2), Edge("ca", 3), Edge("o", 4), Edge("a", 5), Edge("o", 6), Edge("o", 7)], 1, 0, 0)

  // C32: built by `TakeChild(C31, 5, 1, 6)` in `CStep252`; also the result of `Flush(C29)` (CStep276)
  const C32: Tree := Tree([Node({0, 1}, map['a' := 4, 'c' := 2, 'o' := 6], -1), Node({0, 1}, map[], 2), Node({0, 1}, map[], 4), Node({0, 1}, map['c' := 0, 'o' := 3], 5), Node({0, 1}, map[], 6), Node({0, 1}, map['c' := 1, 'o' := 5], 0), Node({0, 1}, map[], 7), Node({0, 1}, map[], 0)], [Edge("cao", 1), Edge("cao", 2), Edge("ca", 3), Edge("o", 4), Edge("a", 5), Edge("o", 6), Edge("o", 7)], 1, 0, 0)

  ghost method C0Wf()
    ensures Wf(C0)
  {
    assert C0 == EmptyTree();
  }

  ghost method C2Wf()
    ensures Wf(C2)
  {
    CStep3();
    assert C2 == C1.(activeLeaf := 1);
    RelinkWf(C1, C2);
  }

  ghost method C5Wf()
    ensures Wf(C5)
  {
    CStep22();
    assert C5 == C4.(activeLeaf := 2);
    RelinkWf(C4, C5);
  }

  ghost method C9Wf()
    ensures Wf(C9)
  {
    CStep56();
    assert C9 == C8.(activeLeaf := 4);
    RelinkWf(C8, C9);
  }

  ghost method C13Wf()
    ensures Wf(C13)
  {
    CStep67();
    assert C13 == C12.(activeLeaf := 6);
    RelinkWf(C12, C13);
  }

  ghost method C17Wf()
    ensures Wf(C17)
  {
    CStep76();
    assert C17 == C16.(activeLeaf := 7);
    RelinkWf(C16, C17);
  }

  ghost method C23Wf()
    ensures Wf(C23)
  {
    CStep98();
    assert C23 == C19.(last := 1, activeLeaf := 0);
  }

  ghost method CStep0()
    ensures Wf(C0)
    ensures Canonize(C0, 0, "") == Position(0, "")
  {
    C0Wf();
  }

  ghost method CStep1()
    ensures Wf(C0)
    ensures AtNode(C0, 0, 'c', "cacao", 0) == Success(Answer(C0, false, 0))
  {
    assert 'c' !in C0.nodes[0].edges;
    C0Wf();
  }

  ghost method CStep2()
    ensures Wf(C0)
    ensures TestAndSplit(C0, 0, "", 'c', "cacao", 0) == Success(Answer(C0, false, 0))
  {
    C0Wf();
    CStep0();
    CStep1();
  }

  ghost method CStep3()
    ensures Wf(C0)
    ensures AttachLeaf(C0, 0, 'c', "cacao", 0) == (C1, 1)
    ensures Wf(C1)
  {
    assert 'c' !in C0.nodes[0].edges;
    C0Wf();
    assert AttachLeaf(C0, 0, 'c', "cacao", 0) == (Tree(C0.nodes[0 := AddEdge(C0.nodes[0], 'c', 0)] + [Node({0}, map[], -1)], C0.edges + [Edge("cacao", 1)], C0.last, C0.root, C0.activeLeaf), 1);
    CSame3();
  }

  ghost method CStep4()
    ensures Wf(C1)
    ensures LinkUnlessRoot(C1, 0, 1) == C1
  {
    CStep3();
  }

  ghost method CStep5()
    ensures Wf(C2)
    ensures LinkUnlessRoot(C2, 0, 0) == C2
  {
    C2Wf();
  }

  ghost method CStep6()
    ensures Wf(C0)
    ensures Grow(C0, 0, 0, 'c', "cacao", 0) == C2
    ensures Wf(C2)
  {
    C0Wf();
    CStep3();
    CStep4();
    CStep5();
  }

  ghost method CStep7()
    ensures Wf(C2)
    ensures NextPosition(C2, 0, "c") == Position(0, "")
  {
    assert "c"[1..] == "";
    assert C2.nodes[0].suffix == -1;
    C2Wf();
  }

  ghost method CStep8()
    ensures Wf(C2)
    ensures Canonize(C2, 0, "") == Position(0, "")
  {
    C2Wf();
  }

  ghost method CStep9()
    ensures Wf(C2)
    ensures AddIndex(C2, 1, 0) == C2
  {
    assert 0 in C2.nodes[1].ids;
    C2Wf();
  }

  ghost method CStep10()
    ensures Wf(C2)
    ensures AtNode(C2, 0, 'c', "cacao", 0) == Success(Answer(C2, true, 0))
  {
    assert 'c' in C2.nodes[0].edges && C2.nodes[0].edges['c'] == 0;
    assert C2.edges[0] == Edge("cacao", 1);
    assert StartsWith("cacao", "cacao");
    assert StartsWith("cacao", "cacao");
    C2Wf();
    CStep9();
  }

  ghost method CStep11()
    ensures Wf(C2)
    ensures TestAndSplit(C2, 0, "", 'c', "cacao", 0) == Success(Answer(C2, true, 0))
  {
    C2Wf();
    CStep8();
    CStep10();
  }

  ghost method CStep12()
    ensures Wf(C0)
    ensures Round(C0, 0, "c", 0, 0, 'c', "cacao", 0) == Success((Answer(C2, true, 0), Position(0, "")))
    ensures Wf(C2)
  {
    assert SafeCutLastChar("") == "";
    C0Wf();
    CStep6();
    CStep7();
    CStep11();
  }

  ghost method CStep14()
    ensures Wf(C2)
    ensures UpdateLoop(C2, 0, "", 0, true, 0, 'c', "cacao", 0, 5) == Success((C2, Position(0, "")))
  {
    C2Wf();
    CStep5();
  }

  ghost method CStep15()
    ensures Wf(C0)
    ensures UpdateLoop(C0, 0, "c", 0, false, 0, 'c', "cacao", 0, 6) == Success((C2, Position(0, "")))
    ensures Wf(C2)
  {
    C0Wf();
    CStep12();
    CStep14();
  }

  ghost method CStep16()
    ensures Wf(C0)
    ensures Update(C0, 0, "c", "cacao", 0, 6) == Success((C2, Position(0, "")))
    ensures Wf(C2)
  {
    assert "c"[..0] == "";
    assert "c"[0] == 'c';
    C0Wf();
    CStep2();
    CStep15();
  }

  ghost method CStep19()
    ensures Wf(C2)
    ensures AtNode(C2, 0, 'a', "acao", 0) == Success(Answer(C2, false, 0))
  {
    assert 'a' !in C2.nodes[0].edges;
    C2Wf();
  }

  ghost method CStep20()
    ensures Wf(C2)
    ensures TestAndSplit(C2, 0, "", 'a', "acao", 0) == Success(Answer(C2, false, 0))
  {
    C2Wf();
    CStep8();
    CStep19();
  }

  ghost method CStep21()
    ensures Wf(C2)
    ensures AttachLeaf(C2, 0, 'a', "acao", 0) == (C3, 2)
    ensures Wf(C3)
  {
    assert 'a' !in C2.nodes[0].edges;
    C2Wf();
    assert AttachLeaf(C2, 0, 'a', "acao", 0) == (Tree(C2.nodes[0 := AddEdge(C2.nodes[0], 'a', 1)] + [Node({0}, map[], -1)], C2.edges + [Edge("acao", 2)], C2.last, C2.root, C2.activeLeaf), 2);
    CSame21();
  }

  ghost method CStep22()
    ensures Wf(C3)
    ensures LinkUnlessRoot(C3, 1, 2) == C4
    ensures Wf(C4)
  {
    CStep21();
    assert LinkUnlessRoot(C3, 1, 2) == SetNode(C3, 1, SetSuffix(C3.nodes[1], 2));
    CSame22();
  }

  ghost method CStep23()
    ensures Wf(C5)
    ensures LinkUnlessRoot(C5, 0, 0) == C5
  {
    C5Wf();
  }

  ghost method CStep24()
    ensures Wf(C2)
    ensures Grow(C2, 0, 0, 'a', "acao", 0) == C5
    ensures Wf(C5)
  {
    C2Wf();
    CStep21();
    CStep22();
    CStep23();
  }

  ghost method CStep25()
    ensures Wf(C5)
    ensures NextPosition(C5, 0, "a") == Position(0, "")
  {
    assert "a"[1..] == "";
    assert C5.nodes[0].suffix == -1;
    C5Wf();
  }

  ghost method CStep26()
    ensures Wf(C5)
    ensures Canonize(C5, 0, "") == Position(0, "")
  {
    C5Wf();
  }

  ghost method CStep27()
    ensures Wf(C5)
    ensures AddIndex(C5, 2, 0) == C5
  {
    assert 0 in C5.nodes[2].ids;
    C5Wf();
  }

  ghost method CStep28()
    ensures Wf(C5)
    ensures AtNode(C5, 0, 'a', "acao", 0) == Success(Answer(C5, true, 0))
  {
    assert 'a' in C5.nodes[0].edges && C5.nodes[0].edges['a'] == 1;
    assert C5.edges[1] == Edge("acao", 2);
    assert StartsWith("acao", "acao");
    assert StartsWith("acao", "acao");
    C5Wf();
    CStep27();
  }

  ghost method CStep29()
    ensures Wf(C5)
    ensures TestAndSplit(C5, 0, "", 'a', "acao", 0) == Success(Answer(C5, true, 0))
  {
    C5Wf();
    CStep26();
    CStep28();
  }

  ghost method CStep30()
    ensures Wf(C2)
    ensures Round(C2, 0, "a", 0, 0, 'a', "acao", 0) == Success((Answer(C5, true, 0), Position(0, "")))
    ensures Wf(C5)
  {
    assert SafeCutLastChar("") == "";
    C2Wf();
    CStep24();
    CStep25();
    CStep29();
  }

  ghost method CStep32()
    ensures Wf(C5)
    ensures UpdateLoop(C5, 0, "", 0, true, 0, 'a', "acao", 0, 5) == Success((C5, Position(0, "")))
  {
    C5Wf();
    CStep23();
  }

  ghost method CStep33()
    ensures Wf(C2)
    ensures UpdateLoop(C2, 0, "a", 0, false, 0, 'a', "acao", 0, 6) == Success((C5, Position(0, "")))
    ensures Wf(C5)
  {
    C2Wf();
    CStep30();
    CStep32();
  }

  ghost method CStep34()
    ensures Wf(C2)
    ensures Update(C2, 0, "a", "acao", 0, 6) == Success((C5, Position(0, "")))
    ensures Wf(C5)
  {
    assert "a"[..0] == "";
    assert "a"[0] == 'a';
    C2Wf();
    CStep20();
    CStep33();
  }

  ghost method CStep37()
    ensures Wf(C5)
    ensures AtNode(C5, 0, 'c', "cao", 0) == Success(Answer(C5, true, 0))
  {
    assert 'c' in C5.nodes[0].edges && C5.nodes[0].edges['c'] == 0;
    assert C5.edges[0] == Edge("cacao", 1);
    assert !StartsWith("cao", "cacao");
    assert !StartsWith("cacao", "cao") by { assert "cacao"[..3][2] != "cao"[2]; }
    C5Wf();
  }

  ghost method CStep38()
    ensures Wf(C5)
    ensures TestAndSplit(C5, 0, "", 'c', "cao", 0) == Success(Answer(C5, true, 0))
  {
    C5Wf();
    CStep26();
    CStep37();
  }

  ghost method CStep40()
    ensures Wf(C5)
    ensures UpdateLoop(C5, 0, "c", 0, true, 0, 'c', "cao", 0, 6) == Success((C5, Position(0, "c")))
  {
    C5Wf();
    CStep23();
  }

  ghost method CStep41()
    ensures Wf(C5)
    ensures Update(C5, 0, "c", "cao", 0, 6) == Success((C5, Position(0, "c")))
  {
    assert "c"[..0] == "";
    assert "c"[0] == 'c';
    C5Wf();
    CStep38();
    CStep40();
  }

  ghost method CStep42()
    ensures Wf(C5)
    ensures Canonize(C5, 0, "c") == Position(0, "c")
  {
    assert 'c' in C5.nodes[0].edges && C5.nodes[0].edges['c'] == 0;
    assert C5.edges[0] == Edge("cacao", 1);
    assert !StartsWith("c", "cacao");
    C5Wf();
  }

  ghost method CStep44()
    ensures Wf(C5)
    ensures InsideEdge(C5, 0, "c", 'a') == Success(Answer(C5, true, 0))
  {
    assert 'c' in C5.nodes[0].edges && C5.nodes[0].edges['c'] == 0;
    assert C5.edges[0] == Edge("cacao", 1);
    assert "cacao"[1] == 'a';
    C5Wf();
  }

  ghost method CStep45()
    ensures Wf(C5)
    ensures TestAndSplit(C5, 0, "c", 'a', "ao", 0) == Success(Answer(C5, true, 0))
  {
    C5Wf();
    CStep42();
    CStep44();
  }

  ghost method CStep47()
    ensures Wf(C5)
    ensures UpdateLoop(C5, 0, "ca", 0, true, 0, 'a', "ao", 0, 6) == Success((C5, Position(0, "ca")))
  {
    C5Wf();
    CStep23();
  }

  ghost method CStep48()
    ensures Wf(C5)
    ensures Update(C5, 0, "ca", "ao", 0, 6) == Success((C5, Position(0, "ca")))
  {
    assert "ca"[..1] == "c";
    assert "ca"[1] == 'a';
    C5Wf();
    CStep45();
    CStep47();
  }

  ghost method CStep49()
    ensures Wf(C5)
    ensures Canonize(C5, 0, "ca") == Position(0, "ca")
  {
    assert 'c' in C5.nodes[0].edges && C5.nodes[0].edges['c'] == 0;
    assert C5.edges[0] == Edge("cacao", 1);
    assert !StartsWith("ca", "cacao");
    C5Wf();
  }

  ghost method CStep51()
    ensures SplitArena(C5, 0, 'c', "ca", {}) == C6
  {
    var a := SplitArena(C5, 0, 'c', "ca", {});
    assert a.nodes[0] == C6.nodes[0];
    assert a.nodes[1] == C6.nodes[1];
    assert a.nodes[2] == C6.nodes[2];
    assert a.nodes[3] == C6.nodes[3];
    assert a.nodes == C6.nodes;
    assert a.edges == C6.edges;
  }

  ghost method CStep52()
    ensures Wf(C5)
    ensures Split(C5, 0, 'c', "ca", None) == (C6, 3)
    ensures Wf(C6)
  {
    C5Wf();
    CStep51();
    assert Split(C5, 0, 'c', "ca", None) == (SplitArena(C5, 0, 'c', "ca", {}), 3);
  }

  ghost method CStep53()
    ensures Wf(C5)
    ensures InsideEdge(C5, 0, "ca", 'o') == Success(Answer(C6, false, 3))
    ensures Wf(C6)
  {
    assert 'c' in C5.nodes[0].edges && C5.nodes[0].edges['c'] == 0;
    assert C5.edges[0] == Edge("cacao", 1);
    assert "cacao"[2] != 'o';
    C5Wf();
    CStep52();
  }

  ghost method CStep54()
    ensures Wf(C5)
    ensures TestAndSplit(C5, 0, "ca", 'o', "o", 0) == Success(Answer(C6, false, 3))
    ensures Wf(C6)
  {
    C5Wf();
    CStep49();
    CStep53();
  }

  ghost method CStep55()
    ensures Wf(C6)
    ensures AttachLeaf(C6, 3, 'o', "o", 0) == (C7, 4)
    ensures Wf(C7)
  {
    assert 'o' !in C6.nodes[3].edges;
    CStep52();
    assert AttachLeaf(C6, 3, 'o', "o", 0) == (Tree(C6.nodes[3 := AddEdge(C6.nodes[3], 'o', 3)] + [Node({0}, map[], -1)], C6.edges + [Edge("o", 4)], C6.last, C6.root, C6.activeLeaf), 4);
    CSame55();
  }

  ghost method CStep56()
    ensures Wf(C7)
    ensures LinkUnlessRoot(C7, 2, 4) == C8
    ensures Wf(C8)
  {
    CStep55();
    assert LinkUnlessRoot(C7, 2, 4) == SetNode(C7, 2, SetSuffix(C7.nodes[2], 4));
    CSame56();
  }

  ghost method CStep57()
    ensures Wf(C9)
    ensures LinkUnlessRoot(C9, 0, 3) == C9
  {
    C9Wf();
  }

  ghost method CStep58()
    ensures Wf(C6)
    ensures Grow(C6, 3, 0, 'o', "o", 0) == C9
    ensures Wf(C9)
  {
    CStep52();
    CStep55();
    CStep56();
    CStep57();
  }

  ghost method CStep59()
    ensures Wf(C9)
    ensures NextPosition(C9, 0, "cao") == Position(0, "ao")
  {
    assert "cao"[1..] == "ao";
    assert C9.nodes[0].suffix == -1;
    C9Wf();
  }

  ghost method CStep60()
    ensures Wf(C9)
    ensures Canonize(C9, 0, "a") == Position(0, "a")
  {
    assert 'a' in C9.nodes[0].edges && C9.nodes[0].edges['a'] == 1;
    assert C9.edges[1] == Edge("acao", 2);
    assert !StartsWith("a", "acao");
    C9Wf();
  }

  ghost method CStep61()
    ensures SplitArena(C9, 0, 'a', "a", {}) == C10
  {
    var a := SplitArena(C9, 0, 'a', "a", {});
    assert a.nodes[0] == C10.nodes[0];
    assert a.nodes[1] == C10.nodes[1];
    assert a.nodes[2] == C10.nodes[2];
    assert a.nodes[3] == C10.nodes[3];
    assert a.nodes[4] == C10.nodes[4];
    assert a.nodes[5] == C10.nodes[5];
    assert a.nodes == C10.nodes;
    assert a.edges == C10.edges;
  }

  ghost method CStep62()
    ensures Wf(C9)
    ensures Split(C9, 0, 'a', "a", None) == (C10, 5)
    ensures Wf(C10)
  {
    C9Wf();
    CStep61();
    assert Split(C9, 0, 'a', "a", None) == (SplitArena(C9, 0, 'a', "a", {}), 5);
  }

  ghost method CStep63()
    ensures Wf(C9)
    ensures InsideEdge(C9, 0, "a", 'o') == Success(Answer(C10, false, 5))
    ensures Wf(C10)
  {
    assert 'a' in C9.nodes[0].edges && C9.nodes[0].edges['a'] == 1;
    assert C9.edges[1] == Edge("acao", 2);
    assert "acao"[1] != 'o';
    C9Wf();
    CStep62();
  }

  ghost method CStep64()
    ensures Wf(C9)
    ensures TestAndSplit(C9, 0, "a", 'o', "o", 0) == Success(Answer(C10, false, 5))
    ensures Wf(C10)
  {
    C9Wf();
    CStep60();
    CStep63();
  }

  ghost method CStep65()
    ensures Wf(C6)
    ensures Round(C6, 0, "cao", 3, 0, 'o', "o", 0) == Success((Answer(C10, false, 5), Position(0, "ao")))
    ensures Wf(C10)
  {
    assert SafeCutLastChar("ao") == "a";
    CStep52();
    CStep58();
    CStep59();
    CStep64();
  }

  ghost method CStep66()
    ensures Wf(C10)
    ensures AttachLeaf(C10, 5, 'o', "o", 0) == (C11, 6)
    ensures Wf(C11)
  {
    assert 'o' !in C10.nodes[5].edges;
    CStep62();
    assert AttachLeaf(C10, 5, 'o', "o", 0) == (Tree(C10.nodes[5 := AddEdge(C10.nodes[5], 'o', 5)] + [Node({0}, map[], -1)], C10.edges + [Edge("o", 6)], C10.last, C10.root, C10.activeLeaf), 6);
    CSame66();
  }

  ghost method CStep67()
    ensures Wf(C11)
    ensures LinkUnlessRoot(C11, 4, 6) == C12
    ensures Wf(C12)
  {
    CStep66();
    assert LinkUnlessRoot(C11, 4, 6) == SetNode(C11, 4, SetSuffix(C11.nodes[4], 6));
    CSame67();
  }

  ghost method CStep68()
    ensures Wf(C13)
    ensures LinkUnlessRoot(C13, 3, 5) == C14
    ensures Wf(C14)
  {
    C13Wf();
    assert LinkUnlessRoot(C13, 3, 5) == SetNode(C13, 3, SetSuffix(C13.nodes[3], 5));
    CSame68();
  }

  ghost method CStep69()
    ensures Wf(C10)
    ensures Grow(C10, 5, 3, 'o', "o", 0) == C14
    ensures Wf(C14)
  {
    CStep62();
    CStep66();
    CStep67();
    CStep68();
  }

  ghost method CStep70()
    ensures Wf(C14)
    ensures NextPosition(C14, 0, "ao") == Position(0, "o")
  {
    assert "ao"[1..] == "o";
    assert C14.nodes[0].suffix == -1;
    CStep68();
  }

  ghost method CStep71()
    ensures Wf(C14)
    ensures Canonize(C14, 0, "") == Position(0, "")
  {
    CStep68();
  }

  ghost method CStep72()
    ensures Wf(C14)
    ensures AtNode(C14, 0, 'o', "o", 0) == Success(Answer(C14, false, 0))
  {
    assert 'o' !in C14.nodes[0].edges;
    CStep68();
  }

  ghost method CStep73()
    ensures Wf(C14)
    ensures TestAndSplit(C14, 0, "", 'o', "o", 0) == Success(Answer(C14, false, 0))
  {
    CStep68();
    CStep71();
    CStep72();
  }

  ghost method CStep74()
    ensures Wf(C10)
    ensures Round(C10, 0, "ao", 5, 3, 'o', "o", 0) == Success((Answer(C14, false, 0), Position(0, "o")))
    ensures Wf(C14)
  {
    assert SafeCutLastChar("o") == "";
    CStep62();
    CStep69();
    CStep70();
    CStep73();
  }

  ghost method CStep75()
    ensures Wf(C14)
    ensures AttachLeaf(C14, 0, 'o', "o", 0) == (C15, 7)
    ensures Wf(C15)
  {
    assert 'o' !in C14.nodes[0].edges;
    CStep68();
    assert AttachLeaf(C14, 0, 'o', "o", 0) == (Tree(C14.nodes[0 := AddEdge(C14.nodes[0], 'o', 6)] + [Node({0}, map[], -1)], C14.edges + [Edge("o", 7)], C14.last, C14.root, C14.activeLeaf), 7);
    CSame75();
  }

  ghost method CStep76()
    ensures Wf(C15)
    ensures LinkUnlessRoot(C15, 6, 7) == C16
    ensures Wf(C16)
  {
    CStep75();
    assert LinkUnlessRoot(C15, 6, 7) == SetNode(C15, 6, SetSuffix(C15.nodes[6], 7));
    CSame76();
  }

  ghost method CStep77()
    ensures Wf(C17)
    ensures LinkUnlessRoot(C17, 5, 0) == C18
    ensures Wf(C18)
  {
    C17Wf();
    assert LinkUnlessRoot(C17, 5, 0) == SetNode(C17, 5, SetSuffix(C17.nodes[5], 0));
    CSame77();
  }

  ghost method CStep78()
    ensures Wf(C14)
    ensures Grow(C14, 0, 5, 'o', "o", 0) == C18
    ensures Wf(C18)
  {
    CStep68();
    CStep75();
    CStep76();
    CStep77();
  }

  ghost method CStep79()
    ensures Wf(C18)
    ensures NextPosition(C18, 0, "o") == Position(0, "")
  {
    assert "o"[1..] == "";
    assert C18.nodes[0].suffix == -1;
    CStep77();
  }

  ghost method CStep80()
    ensures Wf(C18)
    ensures Canonize(C18, 0, "") == Position(0, "")
  {
    CStep77();
  }

  ghost method CStep81()
    ensures Wf(C18)
    ensures AddIndex(C18, 7, 0) == C18
  {
    assert 0 in C18.nodes[7].ids;
    CStep77();
  }

  ghost method CStep82()
    ensures Wf(C18)
    ensures AtNode(C18, 0, 'o', "o", 0) == Success(Answer(C18, true, 0))
  {
    assert 'o' in C18.nodes[0].edges && C18.nodes[0].edges['o'] == 6;
    assert C18.edges[6] == Edge("o", 7);
    assert StartsWith("o", "o");
    assert StartsWith("o", "o");
    CStep77();
    CStep81();
  }

  ghost method CStep83()
    ensures Wf(C18)
    ensures TestAndSplit(C18, 0, "", 'o', "o", 0) == Success(Answer(C18, true, 0))
  {
    CStep77();
    CStep80();
    CStep82();
  }

  ghost method CStep84()
    ensures Wf(C14)
    ensures Round(C14, 0, "o", 0, 5, 'o', "o", 0) == Success((Answer(C18, true, 0), Position(0, "")))
    ensures Wf(C18)
  {
    assert SafeCutLastChar("") == "";
    CStep68();
    CStep78();
    CStep79();
    CStep83();
  }

  ghost method CStep85()
    ensures Wf(C18)
    ensures LinkUnlessRoot(C18, 0, 0) == C18
  {
    CStep77();
  }

  ghost method CStep86()
    ensures Wf(C18)
    ensures UpdateLoop(C18, 0, "", 0, true, 0, 'o', "o", 0, 3) == Success((C18, Position(0, "")))
  {
    CStep77();
    CStep85();
  }

  ghost method CStep87()
    ensures Wf(C14)
    ensures UpdateLoop(C14, 0, "o", 0, false, 5, 'o', "o", 0, 4) == Success((C18, Position(0, "")))
    ensures Wf(C18)
  {
    CStep68();
    CStep84();
    CStep86();
  }

  ghost method CStep88()
    ensures Wf(C10)
    ensures UpdateLoop(C10, 0, "ao", 5, false, 3, 'o', "o", 0, 5) == Success((C18, Position(0, "")))
    ensures Wf(C18)
  {
    CStep62();
    CStep74();
    CStep87();
  }

  ghost method CStep89()
    ensures Wf(C6)
    ensures UpdateLoop(C6, 0, "cao", 3, false, 0, 'o', "o", 0, 6) == Success((C18, Position(0, "")))
    ensures Wf(C18)
  {
    CStep52();
    CStep65();
    CStep88();
  }

  ghost method CStep90()
    ensures Wf(C5)
    ensures Update(C5, 0, "cao", "o", 0, 6) == Success((C18, Position(0, "")))
    ensures Wf(C18)
  {
    assert "cao"[..2] == "ca";
    assert "cao"[2] == 'o';
    C5Wf();
    CStep54();
    CStep89();
  }

  ghost method CStep92()
    ensures Wf(C18)
    ensures AddWordFrom(C18, "cacao", 5, 0, "", 0) == Success((C18, 0))
  {
    CStep77();
  }

  ghost method CStep93()
    ensures Wf(C5)
    ensures AddWordFrom(C5, "cacao", 4, 0, "ca", 0) == Success((C18, 0))
    ensures Wf(C18)
  {
    assert "ca" + ["cacao"[4]] == "cao";
    assert "cacao"[4..] == "o";
    C5Wf();
    CStep90();
    CStep80();
    CStep92();
  }

  ghost method CStep94()
    ensures Wf(C5)
    ensures AddWordFrom(C5, "cacao", 3, 0, "c", 0) == Success((C18, 0))
    ensures Wf(C18)
  {
    assert "c" + ["cacao"[3]] == "ca";
    assert "cacao"[3..] == "ao";
    C5Wf();
    CStep48();
    CStep49();
    CStep93();
  }

  ghost method CStep95()
    ensures Wf(C5)
    ensures AddWordFrom(C5, "cacao", 2, 0, "", 0) == Success((C18, 0))
    ensures Wf(C18)
  {
    assert "" + ["cacao"[2]] == "c";
    assert "cacao"[2..] == "cao";
    C5Wf();
    CStep41();
    CStep42();
    CStep94();
  }

  ghost method CStep96()
    ensures Wf(C2)
    ensures AddWordFrom(C2, "cacao", 1, 0, "", 0) == Success((C18, 0))
    ensures Wf(C18)
  {
    assert "" + ["cacao"[1]] == "a";
    assert "cacao"[1..] == "acao";
    C2Wf();
    CStep34();
    CStep26();
    CStep95();
  }

  ghost method CStep97()
    ensures Wf(C0)
    ensures AddWordFrom(C0, "cacao", 0, 0, "", 0) == Success((C18, 0))
    ensures Wf(C18)
  {
    assert "" + ["cacao"[0]] == "c";
    assert "cacao"[0..] == "cacao";
    C0Wf();
    CStep16();
    CStep8();
    CStep96();
  }

  ghost method CStep98()
    ensures Wf(C18)
    ensures LinkUnlessRoot(C18, 7, 0) == C19
    ensures Wf(C19)
  {
    CStep77();
    assert LinkUnlessRoot(C18, 7, 0) == SetNode(C18, 7, SetSuffix(C18.nodes[7], 0));
    CSame98();
  }

  ghost method CStep99()
    ensures Wf(C0)
    ensures AddWord(C0, "cacao", 0) == Success(C19)
    ensures Wf(C19)
  {
    assert C18.nodes[7].suffix == -1;
    C0Wf();
    CStep97();
    CStep98();
  }

  ghost method CStep100()
    ensures Wf(C19)
    ensures UpdateIndices(C19, 1, 6) == C19
  {
    assert C19.nodes[1].edges == map[];
    CStep98();
  }

  ghost method CStep101()
    ensures Wf(C19)
    ensures TakeChild(C19, 3, 0, 6) == C20
    ensures Wf(C20)
  {
    CSame101();
    assert C19.edges[0].dest == 1;
    assert C19.nodes[3].ids == {} && C19.nodes[1].ids == {0};
    CStep98();
    CStep100();
    assert TakeChild(C19, 3, 0, 6) == SetNode(C19, 3, AddIndices(C19.nodes[3], C19.nodes[1].ids));
    assert TakeChild(C19, 3, 0, 6) == C20;
    SameShapeWf(C19, C20);
  }

  ghost method CStep102()
    ensures Wf(C20)
    ensures UpdateIndices(C20, 4, 6) == C20
  {
    assert C20.nodes[4].edges == map[];
    CStep101();
  }

  ghost method CStep103()
    ensures Wf(C20)
    ensures TakeChild(C20, 3, 3, 6) == C20
  {
    CSame103();
    assert C20.edges[3].dest == 4;
    assert C20.nodes[3].ids == {0} && C20.nodes[4].ids == {0};
    CStep101();
    CStep102();
    assert TakeChild(C20, 3, 3, 6) == SetNode(C20, 3, AddIndices(C20.nodes[3], C20.nodes[4].ids));
  }

  ghost method CStep104()
    ensures Wf(C20)
    ensures MergeChildren(C20, 3, 7, 6) == C20
  {
    CStep101();
  }

  ghost method CStep105()
    ensures Wf(C20)
    ensures MergeChildren(C20, 3, 6, 6) == C20
  {
    assert 6 !in C20.nodes[3].edges.Values;
    CStep101();
    CStep104();
  }

  ghost method CStep106()
    ensures Wf(C20)
    ensures MergeChildren(C20, 3, 5, 6) == C20
  {
    assert 5 !in C20.nodes[3].edges.Values;
    CStep101();
    CStep105();
  }

  ghost method CStep107()
    ensures Wf(C20)
    ensures MergeChildren(C20, 3, 4, 6) == C20
  {
    assert 4 !in C20.nodes[3].edges.Values;
    CStep101();
    CStep106();
  }

  ghost method CStep108()
    ensures Wf(C20)
    ensures MergeChildren(C20, 3, 3, 6) == C20
  {
    assert C20.nodes[3].edges['o'] == 3;
    CStep101();
    CStep103();
    CStep107();
  }

  ghost method CStep109()
    ensures Wf(C20)
    ensures MergeChildren(C20, 3, 2, 6) == C20
  {
    assert 2 !in C20.nodes[3].edges.Values;
    CStep101();
    CStep108();
  }

  ghost method CStep110()
    ensures Wf(C20)
    ensures MergeChildren(C20, 3, 1, 6) == C20
  {
    assert 1 !in C20.nodes[3].edges.Values;
    CStep101();
    CStep109();
  }

  ghost method CStep111()
    ensures Wf(C19)
    ensures MergeChildren(C19, 3, 0, 6) == C20
    ensures Wf(C20)
  {
    assert C19.nodes[3].edges['c'] == 0;
    CStep98();
    CStep101();
    CStep110();
    assert MergeChildren(C19, 3, 0, 6) == C20;
    SameShapeWf(C19, C20);
  }

  ghost method CStep112()
    ensures Wf(C19)
    ensures UpdateIndices(C19, 3, 7) == C20
    ensures Wf(C20)
  {
    assert 'o' in C19.nodes[3].edges;
    CStep98();
    CStep111();
    assert UpdateIndices(C19, 3, 7) == C20;
    SameShapeWf(C19, C20);
  }

  ghost method CStep113()
    ensures Wf(C19)
    ensures TakeChild(C19, 0, 2, 7) == C21
    ensures Wf(C21)
  {
    CSame113();
    assert C19.edges[2].dest == 3;
    assert C20.nodes[0].ids == {} && C20.nodes[3].ids == {0};
    CStep98();
    CStep112();
    assert TakeChild(C19, 0, 2, 7) == SetNode(C20, 0, AddIndices(C20.nodes[0], C20.nodes[3].ids));
    assert TakeChild(C19, 0, 2, 7) == C21;
    SameShapeWf(C19, C21);
  }

  ghost method CStep114()
    ensures Wf(C21)
    ensures UpdateIndices(C21, 2, 6) == C21
  {
    assert C21.nodes[2].edges == map[];
    CStep113();
  }

  ghost method CStep115()
    ensures Wf(C21)
    ensures TakeChild(C21, 5, 1, 6) == C22
    ensures Wf(C22)
  {
    CSame115();
    assert C21.edges[1].dest == 2;
    assert C21.nodes[5].ids == {} && C21.nodes[2].ids == {0};
    CStep113();
    CStep114();
    assert TakeChild(C21, 5, 1, 6) == SetNode(C21, 5, AddIndices(C21.nodes[5], C21.nodes[2].ids));
    assert TakeChild(C21, 5, 1, 6) == C22;
    SameShapeWf(C21, C22);
  }

  ghost method CStep116()
    ensures Wf(C22)
    ensures UpdateIndices(C22, 6, 6) == C22
  {
    assert C22.nodes[6].edges == map[];
    CStep115();
  }

  ghost method CStep117()
    ensures Wf(C22)
    ensures TakeChild(C22, 5, 5, 6) == C22
  {
    CSame117();
    assert C22.edges[5].dest == 6;
    assert C22.nodes[5].ids == {0} && C22.nodes[6].ids == {0};
    CStep115();
    CStep116();
    assert TakeChild(C22, 5, 5, 6) == SetNode(C22, 5, AddIndices(C22.nodes[5], C22.nodes[6].ids));
  }

  ghost method CStep118()
    ensures Wf(C22)
    ensures MergeChildren(C22, 5, 7, 6) == C22
  {
    CStep115();
  }

  ghost method CStep119()
    ensures Wf(C22)
    ensures MergeChildren(C22, 5, 6, 6) == C22
  {
    assert 6 !in C22.nodes[5].edges.Values;
    CStep115();
    CStep118();
  }

  ghost method CStep120()
    ensures Wf(C22)
    ensures MergeChildren(C22, 5, 5, 6) == C22
  {
    assert C22.nodes[5].edges['o'] == 5;
    CStep115();
    CStep117();
    CStep119();
  }

  ghost method CStep121()
    ensures Wf(C22)
    ensures MergeChildren(C22, 5, 4, 6) == C22
  {
    assert 4 !in C22.nodes[5].edges.Values;
    CStep115();
    CStep120();
  }

  ghost method CStep122()
    ensures Wf(C22)
    ensures MergeChildren(C22, 5, 3, 6) == C22
  {
    assert 3 !in C22.nodes[5].edges.Values;
    CStep115();
    CStep121();
  }

  ghost method CStep123()
    ensures Wf(C22)
    ensures MergeChildren(C22, 5, 2, 6) == C22
  {
    assert 2 !in C22.nodes[5].edges.Values;
    CStep115();
    CStep122();
  }

  ghost method CStep124()
    ensures Wf(C21)
    ensures MergeChildren(C21, 5, 1, 6) == C22
    ensures Wf(C22)
  {
    assert C21.nodes[5].edges['c'] == 1;
    CStep113();
    CStep115();
    CStep123();
    assert MergeChildren(C21, 5, 1, 6) == C22;
    SameShapeWf(C21, C22);
  }

  ghost method CStep125()
    ensures Wf(C21)
    ensures MergeChildren(C21, 5, 0, 6) == C22
    ensures Wf(C22)
  {
    assert 0 !in C21.nodes[5].edges.Values;
    CStep113();
    CStep124();
    assert MergeChildren(C21, 5, 0, 6) == C22;
    SameShapeWf(C21, C22);
  }

  ghost method CStep126()
    ensures Wf(C21)
    ensures UpdateIndices(C21, 5, 7) == C22
    ensures Wf(C22)
  {
    assert 'o' in C21.nodes[5].edges;
    CStep113();
    CStep125();
    assert UpdateIndices(C21, 5, 7) == C22;
    SameShapeWf(C21, C22);
  }

  ghost method CStep127()
    ensures Wf(C21)
    ensures TakeChild(C21, 0, 4, 7) == C22
    ensures Wf(C22)
  {
    CSame127();
    assert C21.edges[4].dest == 5;
    assert C22.nodes[0].ids == {0} && C22.nodes[5].ids == {0};
    CStep113();
    CStep126();
    assert TakeChild(C21, 0, 4, 7) == SetNode(C22, 0, AddIndices(C22.nodes[0], C22.nodes[5].ids));
    assert TakeChild(C21, 0, 4, 7) == C22;
    SameShapeWf(C21, C22);
  }

  ghost method CStep128()
    ensures Wf(C22)
    ensures UpdateIndices(C22, 7, 7) == C22
  {
    assert C22.nodes[7].edges == map[];
    CStep115();
  }

  ghost method CStep129()
    ensures Wf(C22)
    ensures TakeChild(C22, 0, 6, 7) == C22
  {
    CSame129();
    assert C22.edges[6].dest == 7;
    assert C22.nodes[0].ids == {0} && C22.nodes[7].ids == {0};
    CStep115();
    CStep128();
    assert TakeChild(C22, 0, 6, 7) == SetNode(C22, 0, AddIndices(C22.nodes[0], C22.nodes[7].ids));
  }

  ghost method CStep130()
    ensures Wf(C22)
    ensures MergeChildren(C22, 0, 7, 7) == C22
  {
    CStep115();
  }

  ghost method CStep131()
    ensures Wf(C22)
    ensures MergeChildren(C22, 0, 6, 7) == C22
  {
    assert C22.nodes[0].edges['o'] == 6;
    CStep115();
    CStep129();
    CStep130();
  }

  ghost method CStep132()
    ensures Wf(C22)
    ensures MergeChildren(C22, 0, 5, 7) == C22
  {
    assert 5 !in C22.nodes[0].edges.Values;
    CStep115();
    CStep131();
  }

  ghost method CStep133()
    ensures Wf(C21)
    ensures MergeChildren(C21, 0, 4, 7) == C22
    ensures Wf(C22)
  {
    assert C21.nodes[0].edges['a'] == 4;
    CStep113();
    CStep127();
    CStep132();
    assert MergeChildren(C21, 0, 4, 7) == C22;
    SameShapeWf(C21, C22);
  }

  ghost method CStep134()
    ensures Wf(C21)
    ensures MergeChildren(C21, 0, 3, 7) == C22
    ensures Wf(C22)
  {
    assert 3 !in C21.nodes[0].edges.Values;
    CStep113();
    CStep133();
    assert MergeChildren(C21, 0, 3, 7) == C22;
    SameShapeWf(C21, C22);
  }

  ghost method CStep135()
    ensures Wf(C19)
    ensures MergeChildren(C19, 0, 2, 7) == C22
    ensures Wf(C22)
  {
    assert C19.nodes[0].edges['c'] == 2;
    CStep98();
    CStep113();
    CStep134();
    assert MergeChildren(C19, 0, 2, 7) == C22;
    SameShapeWf(C19, C22);
  }

  ghost method CStep136()
    ensures Wf(C19)
    ensures MergeChildren(C19, 0, 1, 7) == C22
    ensures Wf(C22)
  {
    assert 1 !in C19.nodes[0].edges.Values;
    CStep98();
    CStep135();
    assert MergeChildren(C19, 0, 1, 7) == C22;
    SameShapeWf(C19, C22);
  }

  ghost method CStep137()
    ensures Wf(C19)
    ensures MergeChildren(C19, 0, 0, 7) == C22
    ensures Wf(C22)
  {
    assert 0 !in C19.nodes[0].edges.Values;
    CStep98();
    CStep136();
    assert MergeChildren(C19, 0, 0, 7) == C22;
    SameShapeWf(C19, C22);
  }

  ghost method CStep138()
    ensures Wf(C19)
    ensures UpdateIndices(C19, 0, 8) == C22
    ensures Wf(C22)
  {
    assert 'o' in C19.nodes[0].edges;
    CStep98();
    CStep137();
    assert UpdateIndices(C19, 0, 8) == C22;
    SameShapeWf(C19, C22);
  }

  ghost method CStep139()
    ensures Wf(C19)
    ensures Flush(C19) == C22
    ensures Wf(C22)
  {
    CStep98();
    CStep138();
  }

  ghost method CStep140()
    ensures Wf(C22)
    ensures SearchFrom(C22, 0, "c", 0) == Some(3)
  {
    assert RegionMatches("c", 0, "ca", 1);
    assert 'c' in C22.nodes[0].edges && C22.nodes[0].edges['c'] == 2;
    assert C22.edges[2] == Edge("ca", 3);
    assert GetEdge(C22.nodes[0], 'c') == 2;
    CStep115();
  }

  ghost method CStep141()
    ensures Wf(C22)
    ensures Search(C22, "c") == Some({0})
  {
    assert C22.nodes[3].ids == {0};
    CStep115();
    CStep140();
  }

  ghost method CStep142()
    ensures Wf(C22)
    ensures SearchFrom(C22, 0, "ca", 0) == Some(3)
  {
    assert RegionMatches("ca", 0, "ca", 2);
    assert 'c' in C22.nodes[0].edges && C22.nodes[0].edges['c'] == 2;
    assert C22.edges[2] == Edge("ca", 3);
    assert GetEdge(C22.nodes[0], 'c') == 2;
    CStep115();
  }

  ghost method CStep143()
    ensures Wf(C22)
    ensures Search(C22, "ca") == Some({0})
  {
    assert C22.nodes[3].ids == {0};
    CStep115();
    CStep142();
  }

  ghost method CStep144()
    ensures Wf(C22)
    ensures SearchFrom(C22, 3, "cac", 2) == Some(1)
  {
    assert RegionMatches("cac", 2, "cao", 1);
    assert 'c' in C22.nodes[3].edges && C22.nodes[3].edges['c'] == 0;
    assert C22.edges[0] == Edge("cao", 1);
    assert GetEdge(C22.nodes[3], 'c') == 0;
    CStep115();
  }

  ghost method CStep145()
    ensures Wf(C22)
    ensures SearchFrom(C22, 0, "cac", 0) == Some(1)
  {
    assert RegionMatches("cac", 0, "ca", 2);
    assert 'c' in C22.nodes[0].edges && C22.nodes[0].edges['c'] == 2;
    assert C22.edges[2] == Edge("ca", 3);
    assert GetEdge(C22.nodes[0], 'c') == 2;
    CStep115();
    CStep144();
  }

  ghost method CStep146()
    ensures Wf(C22)
    ensures Search(C22, "cac") == Some({0})
  {
    assert C22.nodes[1].ids == {0};
    CStep115();
    CStep145();
  }

  ghost method CStep147()
    ensures Wf(C22)
    ensures SearchFrom(C22, 3, "caca", 2) == Some(1)
  {
    assert RegionMatches("caca", 2, "cao", 2);
    assert 'c' in C22.nodes[3].edges && C22.nodes[3].edges['c'] == 0;
    assert C22.edges[0] == Edge("cao", 1);
    assert GetEdge(C22.nodes[3], 'c') == 0;
    CStep115();
  }

  ghost method CStep148()
    ensures Wf(C22)
    ensures SearchFrom(C22, 0, "caca", 0) == Some(1)
  {
    assert RegionMatches("caca", 0, "ca", 2);
    assert 'c' in C22.nodes[0].edges && C22.nodes[0].edges['c'] == 2;
    assert C22.edges[2] == Edge("ca", 3);
    assert GetEdge(C22.nodes[0], 'c') == 2;
    CStep115();
    CStep147();
  }

  ghost method CStep149()
    ensures Wf(C22)
    ensures Search(C22, "caca") == Some({0})
  {
    assert C22.nodes[1].ids == {0};
    CStep115();
    CStep148();
  }

  ghost method CStep150()
    ensures Wf(C22)
    ensures SearchFrom(C22, 3, "cacao", 2) == Some(1)
  {
    assert RegionMatches("cacao", 2, "cao", 3);
    assert 'c' in C22.nodes[3].edges && C22.nodes[3].edges['c'] == 0;
    assert C22.edges[0] == Edge("cao", 1);
    assert GetEdge(C22.nodes[3], 'c') == 0;
    CStep115();
  }

  ghost method CStep151()
    ensures Wf(C22)
    ensures SearchFrom(C22, 0, "cacao", 0) == Some(1)
  {
    assert RegionMatches("cacao", 0, "ca", 2);
    assert 'c' in C22.nodes[0].edges && C22.nodes[0].edges['c'] == 2;
    assert C22.edges[2] == Edge("ca", 3);
    assert GetEdge(C22.nodes[0], 'c') == 2;
    CStep115();
    CStep150();
  }

  ghost method CStep152()
    ensures Wf(C22)
    ensures Search(C22, "cacao") == Some({0})
  {
    assert C22.nodes[1].ids == {0};
    CStep115();
    CStep151();
  }

  ghost method CStep153()
    ensures Wf(C22)
    ensures SearchFrom(C22, 0, "a", 0) == Some(5)
  {
    assert RegionMatches("a", 0, "a", 1);
    assert 'a' in C22.nodes[0].edges && C22.nodes[0].edges['a'] == 4;
    assert C22.edges[4] == Edge("a", 5);
    assert GetEdge(C22.nodes[0], 'a') == 4;
    CStep115();
  }

  ghost method CStep154()
    ensures Wf(C22)
    ensures Search(C22, "a") == Some({0})
  {
    assert C22.nodes[5].ids == {0};
    CStep115();
    CStep153();
  }

  ghost method CStep155()
    ensures Wf(C22)
    ensures SearchFrom(C22, 5, "ac", 1) == Some(2)
  {
    assert RegionMatches("ac", 1, "cao", 1);
    assert 'c' in C22.nodes[5].edges && C22.nodes[5].edges['c'] == 1;
    assert C22.edges[1] == Edge("cao", 2);
    assert GetEdge(C22.nodes[5], 'c') == 1;
    CStep115();
  }

  ghost method CStep156()
    ensures Wf(C22)
    ensures SearchFrom(C22, 0, "ac", 0) == Some(2)
  {
    assert RegionMatches("ac", 0, "a", 1);
    assert 'a' in C22.nodes[0].edges && C22.nodes[0].edges['a'] == 4;
    assert C22.edges[4] == Edge("a", 5);
    assert GetEdge(C22.nodes[0], 'a') == 4;
    CStep115();
    CStep155();
  }

  ghost method CStep157()
    ensures Wf(C22)
    ensures Search(C22, "ac") == Some({0})
  {
    assert C22.nodes[2].ids == {0};
    CStep115();
    CStep156();
  }

  ghost method CStep158()
    ensures Wf(C22)
    ensures SearchFrom(C22, 5, "aca", 1) == Some(2)
  {
    assert RegionMatches("aca", 1, "cao", 2);
    assert 'c' in C22.nodes[5].edges && C22.nodes[5].edges['c'] == 1;
    assert C22.edges[1] == Edge("cao", 2);
    assert GetEdge(C22.nodes[5], 'c') == 1;
    CStep115();
  }

  ghost method CStep159()
    ensures Wf(C22)
    ensures SearchFrom(C22, 0, "aca", 0) == Some(2)
  {
    assert RegionMatches("aca", 0, "a", 1);
    assert 'a' in C22.nodes[0].edges && C22.nodes[0].edges['a'] == 4;
    assert C22.edges[4] == Edge("a", 5);
    assert GetEdge(C22.nodes[0], 'a') == 4;
    CStep115();
    CStep158();
  }

  ghost method CStep160()
    ensures Wf(C22)
    ensures Search(C22, "aca") == Some({0})
  {
    assert C22.nodes[2].ids == {0};
    CStep115();
    CStep159();
  }

  ghost method CStep161()
    ensures Wf(C22)
    ensures SearchFrom(C22, 5, "acao", 1) == Some(2)
  {
    assert RegionMatches("acao", 1, "cao", 3);
    assert 'c' in C22.nodes[5].edges && C22.nodes[5].edges['c'] == 1;
    assert C22.edges[1] == Edge("cao", 2);
    assert GetEdge(C22.nodes[5], 'c') == 1;
    CStep115();
  }

  ghost method CStep162()
    ensures Wf(C22)
    ensures SearchFrom(C22, 0, "acao", 0) == Some(2)
  {
    assert RegionMatches("acao", 0, "a", 1);
    assert 'a' in C22.nodes[0].edges && C22.nodes[0].edges['a'] == 4;
    assert C22.edges[4] == Edge("a", 5);
    assert GetEdge(C22.nodes[0], 'a') == 4;
    CStep115();
    CStep161();
  }

  ghost method CStep163()
    ensures Wf(C22)
    ensures Search(C22, "acao") == Some({0})
  {
    assert C22.nodes[2].ids == {0};
    CStep115();
    CStep162();
  }

  ghost method CStep164()
    ensures Wf(C22)
    ensures SearchFrom(C22, 3, "cao", 2) == Some(4)
  {
    assert RegionMatches("cao", 2, "o", 1);
    assert 'o' in C22.nodes[3].edges && C22.nodes[3].edges['o'] == 3;
    assert C22.edges[3] == Edge("o", 4);
    assert GetEdge(C22.nodes[3], 'o') == 3;
    CStep115();
  }

  ghost method CStep165()
    ensures Wf(C22)
    ensures SearchFrom(C22, 0, "cao", 0) == Some(4)
  {
    assert RegionMatches("cao", 0, "ca", 2);
    assert 'c' in C22.nodes[0].edges && C22.nodes[0].edges['c'] == 2;
    assert C22.edges[2] == Edge("ca", 3);
    assert GetEdge(C22.nodes[0], 'c') == 2;
    CStep115();
    CStep164();
  }

  ghost method CStep166()
    ensures Wf(C22)
    ensures Search(C22, "cao") == Some({0})
  {
    assert C22.nodes[4].ids == {0};
    CStep115();
    CStep165();
  }

  ghost method CStep167()
    ensures Wf(C22)
    ensures SearchFrom(C22, 5, "ao", 1) == Some(6)
  {
    assert RegionMatches("ao", 1, "o", 1);
    assert 'o' in C22.nodes[5].edges && C22.nodes[5].edges['o'] == 5;
    assert C22.edges[5] == Edge("o", 6);
    assert GetEdge(C22.nodes[5], 'o') == 5;
    CStep115();
  }

  ghost method CStep168()
    ensures Wf(C22)
    ensures SearchFrom(C22, 0, "ao", 0) == Some(6)
  {
    assert RegionMatches("ao", 0, "a", 1);
    assert 'a' in C22.nodes[0].edges && C22.nodes[0].edges['a'] == 4;
    assert C22.edges[4] == Edge("a", 5);
    assert GetEdge(C22.nodes[0], 'a') == 4;
    CStep115();
    CStep167();
  }

  ghost method CStep169()
    ensures Wf(C22)
    ensures Search(C22, "ao") == Some({0})
  {
    assert C22.nodes[6].ids == {0};
    CStep115();
    CStep168();
  }

  ghost method CStep170()
    ensures Wf(C22)
    ensures SearchFrom(C22, 0, "o", 0) == Some(7)
  {
    assert RegionMatches("o", 0, "o", 1);
    assert 'o' in C22.nodes[0].edges && C22.nodes[0].edges['o'] == 6;
    assert C22.edges[6] == Edge("o", 7);
    assert GetEdge(C22.nodes[0], 'o') == 6;
    CStep115();
  }

  ghost method CStep171()
    ensures Wf(C22)
    ensures Search(C22, "o") == Some({0})
  {
    assert C22.nodes[7].ids == {0};
    CStep115();
    CStep170();
  }

  ghost method CStep172()
    ensures Wf(C22)
    ensures SearchFrom(C22, 3, "caco", 2) == None
  {
    assert !RegionMatches("caco", 2, "cao", 2) by { assert "caco"[2..4][1] != "cao"[..2][1]; }
    assert 'c' in C22.nodes[3].edges && C22.nodes[3].edges['c'] == 0;
    assert C22.edges[0] == Edge("cao", 1);
    assert GetEdge(C22.nodes[3], 'c') == 0;
    CStep115();
  }

  ghost method CStep173()
    ensures Wf(C22)
    ensures SearchFrom(C22, 0, "caco", 0) == None
  {
    assert RegionMatches("caco", 0, "ca", 2);
    assert 'c' in C22.nodes[0].edges && C22.nodes[0].edges['c'] == 2;
    assert C22.edges[2] == Edge("ca", 3);
    assert GetEdge(C22.nodes[0], 'c') == 2;
    CStep115();
    CStep172();
  }

  ghost method CStep174()
    ensures Wf(C22)
    ensures Search(C22, "caco") == None
  {
    CStep115();
    CStep173();
  }

  ghost method CStep175()
    ensures Wf(C22)
    ensures SearchFrom(C22, 1, "cacaoo", 5) == None
  {
    assert 'o' !in C22.nodes[1].edges;
    assert GetEdge(C22.nodes[1], 'o') == -1;
    CStep115();
  }

  ghost method CStep176()
    ensures Wf(C22)
    ensures SearchFrom(C22, 3, "cacaoo", 2) == None
  {
    assert RegionMatches("cacaoo", 2, "cao", 3);
    assert 'c' in C22.nodes[3].edges && C22.nodes[3].edges['c'] == 0;
    assert C22.edges[0] == Edge("cao", 1);
    assert GetEdge(C22.nodes[3], 'c') == 0;
    CStep115();
    CStep175();
  }

  ghost method CStep177()
    ensures Wf(C22)
    ensures SearchFrom(C22, 0, "cacaoo", 0) == None
  {
    assert RegionMatches("cacaoo", 0, "ca", 2);
    assert 'c' in C22.nodes[0].edges && C22.nodes[0].edges['c'] == 2;
    assert C22.edges[2] == Edge("ca", 3);
    assert GetEdge(C22.nodes[0], 'c') == 2;
    CStep115();
    CStep176();
  }

  ghost method CStep178()
    ensures Wf(C22)
    ensures Search(C22, "cacaoo") == None
  {
    CStep115();
    CStep177();
  }

  ghost method CStep179()
    ensures Wf(C22)
    ensures SearchFrom(C22, 0, "ccacao", 0) == None
  {
    assert !RegionMatches("ccacao", 0, "ca", 2) by { assert "ccacao"[0..2][1] != "ca"[..2][1]; }
    assert 'c' in C22.nodes[0].edges && C22.nodes[0].edges['c'] == 2;
    assert C22.edges[2] == Edge("ca", 3);
    assert GetEdge(C22.nodes[0], 'c') == 2;
    CStep115();
  }

  ghost method CStep180()
    ensures Wf(C22)
    ensures Search(C22, "ccacao") == None
  {
    CStep115();
    CStep179();
  }

  ghost method CStep181()
    ensures Wf(C23)
    ensures Canonize(C23, 0, "") == Position(0, "")
  {
    C23Wf();
  }

  ghost method CStep182()
    ensures Wf(C23)
    ensures AtNode(C23, 0, 'c', "cacao", 1) == Success(Answer(C23, true, 0))
  {
    assert 'c' in C23.nodes[0].edges && C23.nodes[0].edges['c'] == 2;
    assert C23.edges[2] == Edge("ca", 3);
    assert StartsWith("cacao", "ca");
    assert !StartsWith("ca", "cacao");
    C23Wf();
  }

  ghost method CStep183()
    ensures Wf(C23)
    ensures TestAndSplit(C23, 0, "", 'c', "cacao", 1) == Success(Answer(C23, true, 0))
  {
    C23Wf();
    CStep181();
    CStep182();
  }

  ghost method CStep184()
    ensures Wf(C23)
    ensures LinkUnlessRoot(C23, 0, 0) == C23
  {
    C23Wf();
  }

  ghost method CStep185()
    ensures Wf(C23)
    ensures UpdateLoop(C23, 0, "c", 0, true, 0, 'c', "cacao", 1, 6) == Success((C23, Position(0, "c")))
  {
    C23Wf();
    CStep184();
  }

  ghost method CStep186()
    ensures Wf(C23)
    ensures Update(C23, 0, "c", "cacao", 1, 6) == Success((C23, Position(0, "c")))
  {
    assert "c"[..0] == "";
    assert "c"[0] == 'c';
    C23Wf();
    CStep183();
    CStep185();
  }

  ghost method CStep187()
    ensures Wf(C23)
    ensures Canonize(C23, 0, "c") == Position(0, "c")
  {
    assert 'c' in C23.nodes[0].edges && C23.nodes[0].edges['c'] == 2;
    assert C23.edges[2] == Edge("ca", 3);
    assert !StartsWith("c", "ca");
    C23Wf();
  }

  ghost method CStep189()
    ensures Wf(C23)
    ensures InsideEdge(C23, 0, "c", 'a') == Success(Answer(C23, true, 0))
  {
    assert 'c' in C23.nodes[0].edges && C23.nodes[0].edges['c'] == 2;
    assert C23.edges[2] == Edge("ca", 3);
    assert "ca"[1] == 'a';
    C23Wf();
  }

  ghost method CStep190()
    ensures Wf(C23)
    ensures TestAndSplit(C23, 0, "c", 'a', "acao", 1) == Success(Answer(C23, true, 0))
  {
    C23Wf();
    CStep187();
    CStep189();
  }

  ghost method CStep192()
    ensures Wf(C23)
    ensures UpdateLoop(C23, 0, "ca", 0, true, 0, 'a', "acao", 1, 6) == Success((C23, Position(0, "ca")))
  {
    C23Wf();
    CStep184();
  }

  ghost method CStep193()
    ensures Wf(C23)
    ensures Update(C23, 0, "ca", "acao", 1, 6) == Success((C23, Position(0, "ca")))
  {
    assert "ca"[..1] == "c";
    assert "ca"[1] == 'a';
    C23Wf();
    CStep190();
    CStep192();
  }

  ghost method CStep194()
    ensures Wf(C23)
    ensures Canonize(C23, 3, "") == Position(3, "")
  {
    C23Wf();
  }

  ghost method CStep195()
    ensures Wf(C23)
    ensures Canonize(C23, 0, "ca") == Position(3, "")
  {
    assert "ca"[2..] == "";
    assert 'c' in C23.nodes[0].edges && C23.nodes[0].edges['c'] == 2;
    assert C23.edges[2] == Edge("ca", 3);
    assert StartsWith("ca", "ca");
    C23Wf();
    CStep194();
  }

  ghost method CStep197()
    ensures Wf(C23)
    ensures SetNode(C23, 1, AddIdx(C23.nodes[1], 1)) == C24
    ensures Wf(C24)
  {
    C23Wf();
    AddIndexStep(C23, 1, 1);
    SameShapeWf(C23, SetNode(C23, 1, AddIdx(C23.nodes[1], 1)));
    CSame197();
  }

  ghost method CStep198()
    ensures Wf(C24)
    ensures SetNode(C24, 2, AddIdx(C24.nodes[2], 1)) == C25
    ensures Wf(C25)
  {
    CStep197();
    AddIndexStep(C24, 2, 1);
    SameShapeWf(C24, SetNode(C24, 2, AddIdx(C24.nodes[2], 1)));
    CSame198();
  }

  ghost method CStep199()
    ensures Wf(C25)
    ensures SetNode(C25, 4, AddIdx(C25.nodes[4], 1)) == C26
    ensures Wf(C26)
  {
    CStep198();
    AddIndexStep(C25, 4, 1);
    SameShapeWf(C25, SetNode(C25, 4, AddIdx(C25.nodes[4], 1)));
    CSame199();
  }

  ghost method CStep200()
    ensures Wf(C26)
    ensures SetNode(C26, 6, AddIdx(C26.nodes[6], 1)) == C27
    ensures Wf(C27)
  {
    CStep199();
    AddIndexStep(C26, 6, 1);
    SameShapeWf(C26, SetNode(C26, 6, AddIdx(C26.nodes[6], 1)));
    CSame200();
  }

  ghost method CStep201()
    ensures Wf(C27)
    ensures SetNode(C27, 7, AddIdx(C27.nodes[7], 1)) == C28
    ensures Wf(C28)
  {
    CStep200();
    AddIndexStep(C27, 7, 1);
    SameShapeWf(C27, SetNode(C27, 7, AddIdx(C27.nodes[7], 1)));
    CSame201();
  }

  ghost method CStep202()
    ensures Wf(C28)
    ensures SetNode(C28, 0, AddIdx(C28.nodes[0], 1)) == C29
    ensures Wf(C29)
  {
    CStep201();
    AddIndexStep(C28, 0, 1);
    SameShapeWf(C28, SetNode(C28, 0, AddIdx(C28.nodes[0], 1)));
    CSame202();
  }

  ghost method CStep203()
    ensures Wf(C28)
    ensures AddIndex(C28, 0, 1) == C29
    ensures Wf(C29)
  {
    assert 1 !in C28.nodes[0].ids;
    assert C28.nodes[0].suffix == -1;
    CStep201();
    CStep202();
    assert AddIndex(C28, 0, 1) == C29;
    SameShapeWf(C28, C29);
  }

  ghost method CStep204()
    ensures Wf(C27)
    ensures AddIndex(C27, 7, 1) == C29
    ensures Wf(C29)
  {
    assert 1 !in C27.nodes[7].ids;
    assert C27.nodes[7].suffix == 0;
    CStep200();
    CStep201();
    CStep203();
    assert AddIndex(C27, 7, 1) == C29;
    SameShapeWf(C27, C29);
  }

  ghost method CStep205()
    ensures Wf(C26)
    ensures AddIndex(C26, 6, 1) == C29
    ensures Wf(C29)
  {
    assert 1 !in C26.nodes[6].ids;
    assert C26.nodes[6].suffix == 7;
    CStep199();
    CStep200();
    CStep204();
    assert AddIndex(C26, 6, 1) == C29;
    SameShapeWf(C26, C29);
  }

  ghost method CStep206()
    ensures Wf(C25)
    ensures AddIndex(C25, 4, 1) == C29
    ensures Wf(C29)
  {
    assert 1 !in C25.nodes[4].ids;
    assert C25.nodes[4].suffix == 6;
    CStep198();
    CStep199();
    CStep205();
    assert AddIndex(C25, 4, 1) == C29;
    SameShapeWf(C25, C29);
  }

  ghost method CStep207()
    ensures Wf(C24)
    ensures AddIndex(C24, 2, 1) == C29
    ensures Wf(C29)
  {
    assert 1 !in C24.nodes[2].ids;
    assert C24.nodes[2].suffix == 4;
    CStep197();
    CStep198();
    CStep206();
    assert AddIndex(C24, 2, 1) == C29;
    SameShapeWf(C24, C29);
  }

  ghost method CStep208()
    ensures Wf(C23)
    ensures AddIndex(C23, 1, 1) == C29
    ensures Wf(C29)
  {
    assert 1 !in C23.nodes[1].ids;
    assert C23.nodes[1].suffix == 2;
    C23Wf();
    CStep197();
    CStep207();
    assert AddIndex(C23, 1, 1) == C29;
    SameShapeWf(C23, C29);
  }

  ghost method CStep209()
    ensures Wf(C23)
    ensures AtNode(C23, 3, 'c', "cao", 1) == Success(Answer(C29, true, 3))
    ensures Wf(C29)
  {
    assert 'c' in C23.nodes[3].edges && C23.nodes[3].edges['c'] == 0;
    assert C23.edges[0] == Edge("cao", 1);
    assert StartsWith("cao", "cao");
    assert StartsWith("cao", "cao");
    C23Wf();
    CStep208();
  }

  ghost method CStep210()
    ensures Wf(C23)
    ensures TestAndSplit(C23, 3, "", 'c', "cao", 1) == Success(Answer(C29, true, 3))
    ensures Wf(C29)
  {
    C23Wf();
    CStep194();
    CStep209();
  }

  ghost method CStep211()
    ensures Wf(C29)
    ensures LinkUnlessRoot(C29, 0, 3) == C29
  {
    CStep202();
  }

  ghost method CStep212()
    ensures Wf(C29)
    ensures UpdateLoop(C29, 3, "c", 3, true, 0, 'c', "cao", 1, 6) == Success((C29, Position(3, "c")))
  {
    CStep202();
    CStep211();
  }

  ghost method CStep213()
    ensures Wf(C23)
    ensures Update(C23, 3, "c", "cao", 1, 6) == Success((C29, Position(3, "c")))
    ensures Wf(C29)
  {
    assert "c"[..0] == "";
    assert "c"[0] == 'c';
    C23Wf();
    CStep210();
    CStep212();
  }

  ghost method CStep214()
    ensures Wf(C29)
    ensures Canonize(C29, 3, "c") == Position(3, "c")
  {
    assert 'c' in C29.nodes[3].edges && C29.nodes[3].edges['c'] == 0;
    assert C29.edges[0] == Edge("cao", 1);
    assert !StartsWith("c", "cao");
    CStep202();
  }

  ghost method CStep216()
    ensures Wf(C29)
    ensures InsideEdge(C29, 3, "c", 'a') == Success(Answer(C29, true, 3))
  {
    assert 'c' in C29.nodes[3].edges && C29.nodes[3].edges['c'] == 0;
    assert C29.edges[0] == Edge("cao", 1);
    assert "cao"[1] == 'a';
    CStep202();
  }

  ghost method CStep217()
    ensures Wf(C29)
    ensures TestAndSplit(C29, 3, "c", 'a', "ao", 1) == Success(Answer(C29, true, 3))
  {
    CStep202();
    CStep214();
    CStep216();
  }

  ghost method CStep219()
    ensures Wf(C29)
    ensures UpdateLoop(C29, 3, "ca", 3, true, 0, 'a', "ao", 1, 6) == Success((C29, Position(3, "ca")))
  {
    CStep202();
    CStep211();
  }

  ghost method CStep220()
    ensures Wf(C29)
    ensures Update(C29, 3, "ca", "ao", 1, 6) == Success((C29, Position(3, "ca")))
  {
    assert "ca"[..1] == "c";
    assert "ca"[1] == 'a';
    CStep202();
    CStep217();
    CStep219();
  }

  ghost method CStep221()
    ensures Wf(C29)
    ensures Canonize(C29, 3, "ca") == Position(3, "ca")
  {
    assert 'c' in C29.nodes[3].edges && C29.nodes[3].edges['c'] == 0;
    assert C29.edges[0] == Edge("cao", 1);
    assert !StartsWith("ca", "cao");
    CStep202();
  }

  ghost method CStep223()
    ensures Wf(C29)
    ensures InsideEdge(C29, 3, "ca", 'o') == Success(Answer(C29, true, 3))
  {
    assert 'c' in C29.nodes[3].edges && C29.nodes[3].edges['c'] == 0;
    assert C29.edges[0] == Edge("cao", 1);
    assert "cao"[2] == 'o';
    CStep202();
  }

  ghost method CStep224()
    ensures Wf(C29)
    ensures TestAndSplit(C29, 3, "ca", 'o', "o", 1) == Success(Answer(C29, true, 3))
  {
    CStep202();
    CStep221();
    CStep223();
  }

  ghost method CStep226()
    ensures Wf(C29)
    ensures UpdateLoop(C29, 3, "cao", 3, true, 0, 'o', "o", 1, 6) == Success((C29, Position(3, "cao")))
  {
    CStep202();
    CStep211();
  }

  ghost method CStep227()
    ensures Wf(C29)
    ensures Update(C29, 3, "cao", "o", 1, 6) == Success((C29, Position(3, "cao")))
  {
    assert "cao"[..2] == "ca";
    assert "cao"[2] == 'o';
    CStep202();
    CStep224();
    CStep226();
  }

  ghost method CStep228()
    ensures Wf(C29)
    ensures Canonize(C29, 1, "") == Position(1, "")
  {
    CStep202();
  }

  ghost method CStep229()
    ensures Wf(C29)
    ensures Canonize(C29, 3, "cao") == Position(1, "")
  {
    assert "cao"[3..] == "";
    assert 'c' in C29.nodes[3].edges && C29.nodes[3].edges['c'] == 0;
    assert C29.edges[0] == Edge("cao", 1);
    assert StartsWith("cao", "cao");
    CStep202();
    CStep228();
  }

  ghost method CStep230()
    ensures Wf(C29)
    ensures AddWordFrom(C29, "cacao", 5, 1, "", 1) == Success((C29, 1))
  {
    CStep202();
  }

  ghost method CStep231()
    ensures Wf(C29)
    ensures AddWordFrom(C29, "cacao", 4, 3, "ca", 1) == Success((C29, 1))
  {
    assert "ca" + ["cacao"[4]] == "cao";
    assert "cacao"[4..] == "o";
    CStep202();
    CStep227();
    CStep229();
    CStep230();
  }

  ghost method CStep232()
    ensures Wf(C29)
    ensures AddWordFrom(C29, "cacao", 3, 3, "c", 1) == Success((C29, 1))
  {
    assert "c" + ["cacao"[3]] == "ca";
    assert "cacao"[3..] == "ao";
    CStep202();
    CStep220();
    CStep221();
    CStep231();
  }

  ghost method CStep233()
    ensures Wf(C23)
    ensures AddWordFrom(C23, "cacao", 2, 3, "", 1) == Success((C29, 1))
    ensures Wf(C29)
  {
    assert "" + ["cacao"[2]] == "c";
    assert "cacao"[2..] == "cao";
    C23Wf();
    CStep213();
    CStep214();
    CStep232();
  }

  ghost method CStep234()
    ensures Wf(C23)
    ensures AddWordFrom(C23, "cacao", 1, 0, "c", 1) == Success((C29, 1))
    ensures Wf(C29)
  {
    assert "c" + ["cacao"[1]] == "ca";
    assert "cacao"[1..] == "acao";
    C23Wf();
    CStep193();
    CStep195();
    CStep233();
  }

  ghost method CStep235()
    ensures Wf(C23)
    ensures AddWordFrom(C23, "cacao", 0, 0, "", 1) == Success((C29, 1))
    ensures Wf(C29)
  {
    assert "" + ["cacao"[0]] == "c";
    assert "cacao"[0..] == "cacao";
    C23Wf();
    CStep186();
    CStep187();
    CStep234();
  }

  ghost method CStep236()
    ensures Wf(C19)
    ensures AddWord(C19, "cacao", 1) == Success(C29)
    ensures Wf(C29)
  {
    assert C29.nodes[0].suffix == -1;
    CStep98();
    CStep235();
  }

  ghost method CStep237()
    ensures Wf(C29)
    ensures UpdateIndices(C29, 1, 6) == C29
  {
    assert C29.nodes[1].edges == map[];
    CStep202();
  }

  ghost method CStep238()
    ensures Wf(C29)
    ensures TakeChild(C29, 3, 0, 6) == C30
    ensures Wf(C30)
  {
    CSame238();
    assert C29.edges[0].dest == 1;
    assert C29.nodes[3].ids == {} && C29.nodes[1].ids == {0, 1};
    CStep202();
    CStep237();
    assert TakeChild(C29, 3, 0, 6) == SetNode(C29, 3, AddIndices(C29.nodes[3], C29.nodes[1].ids));
    assert TakeChild(C29, 3, 0, 6) == C30;
    SameShapeWf(C29, C30);
  }

  ghost method CStep239()
    ensures Wf(C30)
    ensures UpdateIndices(C30, 4, 6) == C30
  {
    assert C30.nodes[4].edges == map[];
    CStep238();
  }

  ghost method CStep240()
    ensures Wf(C30)
    ensures TakeChild(C30, 3, 3, 6) == C30
  {
    CSame240();
    assert C30.edges[3].dest == 4;
    assert C30.nodes[3].ids == {0, 1} && C30.nodes[4].ids == {0, 1};
    CStep238();
    CStep239();
    assert TakeChild(C30, 3, 3, 6) == SetNode(C30, 3, AddIndices(C30.nodes[3], C30.nodes[4].ids));
  }

  ghost method CStep241()
    ensures Wf(C30)
    ensures MergeChildren(C30, 3, 7, 6) == C30
  {
    CStep238();
  }

  ghost method CStep242()
    ensures Wf(C30)
    ensures MergeChildren(C30, 3, 6, 6) == C30
  {
    assert 6 !in C30.nodes[3].edges.Values;
    CStep238();
    CStep241();
  }

  ghost method CStep243()
    ensures Wf(C30)
    ensures MergeChildren(C30, 3, 5, 6) == C30
  {
    assert 5 !in C30.nodes[3].edges.Values;
    CStep238();
    CStep242();
  }

  ghost method CStep244()
    ensures Wf(C30)
    ensures MergeChildren(C30, 3, 4, 6) == C30
  {
    assert 4 !in C30.nodes[3].edges.Values;
    CStep238();
    CStep243();
  }

  ghost method CStep245()
    ensures Wf(C30)
    ensures MergeChildren(C30, 3, 3, 6) == C30
  {
    assert C30.nodes[3].edges['o'] == 3;
    CStep238();
    CStep240();
    CStep244();
  }

  ghost method CStep246()
    ensures Wf(C30)
    ensures MergeChildren(C30, 3, 2, 6) == C30
  {
    assert 2 !in C30.nodes[3].edges.Values;
    CStep238();
    CStep245();
  }

  ghost method CStep247()
    ensures Wf(C30)
    ensures MergeChildren(C30, 3, 1, 6) == C30
  {
    assert 1 !in C30.nodes[3].edges.Values;
    CStep238();
    CStep246();
  }

  ghost method CStep248()
    ensures Wf(C29)
    ensures MergeChildren(C29, 3, 0, 6) == C30
    ensures Wf(C30)
  {
    assert C29.nodes[3].edges['c'] == 0;
    CStep202();
    CStep238();
    CStep247();
    assert MergeChildren(C29, 3, 0, 6) == C30;
    SameShapeWf(C29, C30);
  }

  ghost method CStep249()
    ensures Wf(C29)
    ensures UpdateIndices(C29, 3, 7) == C30
    ensures Wf(C30)
  {
    assert 'o' in C29.nodes[3].edges;
    CStep202();
    CStep248();
    assert UpdateIndices(C29, 3, 7) == C30;
    SameShapeWf(C29, C30);
  }

  ghost method CStep250()
    ensures Wf(C29)
    ensures TakeChild(C29, 0, 2, 7) == C31
    ensures Wf(C31)
  {
    CSame250();
    assert C29.edges[2].dest == 3;
    assert C30.nodes[0].ids == {1} && C30.nodes[3].ids == {0, 1};
    CStep202();
    CStep249();
    assert TakeChild(C29, 0, 2, 7) == SetNode(C30, 0, AddIndices(C30.nodes[0], C30.nodes[3].ids));
    assert TakeChild(C29, 0, 2, 7) == C31;
    SameShapeWf(C29, C31);
  }

  ghost method CStep251()
    ensures Wf(C31)
    ensures UpdateIndices(C31, 2, 6) == C31
  {
    assert C31.nodes[2].edges == map[];
    CStep250();
  }

  ghost method CStep252()
    ensures Wf(C31)
    ensures TakeChild(C31, 5, 1, 6) == C32
    ensures Wf(C32)
  {
    CSame252();
    assert C31.edges[1].dest == 2;
    assert C31.nodes[5].ids == {} && C31.nodes[2].ids == {0, 1};
    CStep250();
    CStep251();
    assert TakeChild(C31, 5, 1, 6) == SetNode(C31, 5, AddIndices(C31.nodes[5], C31.nodes[2].ids));
    assert TakeChild(C31, 5, 1, 6) == C32;
    SameShapeWf(C31, C32);
  }

  ghost method CStep253()
    ensures Wf(C32)
    ensures UpdateIndices(C32, 6, 6) == C32
  {
    assert C32.nodes[6].edges == map[];
    CStep252();
  }

  ghost method CStep254()
    ensures Wf(C32)
    ensures TakeChild(C32, 5, 5, 6) == C32
  {
    CSame254();
    assert C32.edges[5].dest == 6;
    assert C32.nodes[5].ids == {0, 1} && C32.nodes[6].ids == {0, 1};
    CStep252();
    CStep253();
    assert TakeChild(C32, 5, 5, 6) == SetNode(C32, 5, AddIndices(C32.nodes[5], C32.nodes[6].ids));
  }

  ghost method CStep255()
    ensures Wf(C32)
    ensures MergeChildren(C32, 5, 7, 6) == C32
  {
    CStep252();
  }

  ghost method CStep256()
    ensures Wf(C32)
    ensures MergeChildren(C32, 5, 6, 6) == C32
  {
    assert 6 !in C32.nodes[5].edges.Values;
    CStep252();
    CStep255();
  }

  ghost method CStep257()
    ensures Wf(C32)
    ensures MergeChildren(C32, 5, 5, 6) == C32
  {
    assert C32.nodes[5].edges['o'] == 5;
    CStep252();
    CStep254();
    CStep256();
  }

  ghost method CStep258()
    ensures Wf(C32)
    ensures MergeChildren(C32, 5, 4, 6) == C32
  {
    assert 4 !in C32.nodes[5].edges.Values;
    CStep252();
    CStep257();
  }

  ghost method CStep259()
    ensures Wf(C32)
    ensures MergeChildren(C32, 5, 3, 6) == C32
  {
    assert 3 !in C32.nodes[5].edges.Values;
    CStep252();
    CStep258();
  }

  ghost method CStep260()
    ensures Wf(C32)
    ensures MergeChildren(C32, 5, 2, 6) == C32
  {
    assert 2 !in C32.nodes[5].edges.Values;
    CStep252();
    CStep259();
  }

  ghost method CStep261()
    ensures Wf(C31)
    ensures MergeChildren(C31, 5, 1, 6) == C32
    ensures Wf(C32)
  {
    assert C31.nodes[5].edges['c'] == 1;
    CStep250();
    CStep252();
    CStep260();
    assert MergeChildren(C31, 5, 1, 6) == C32;
    SameShapeWf(C31, C32);
  }

  ghost method CStep262()
    ensures Wf(C31)
    ensures MergeChildren(C31, 5, 0, 6) == C32
    ensures Wf(C32)
  {
    assert 0 !in C31.nodes[5].edges.Values;
    CStep250();
    CStep261();
    assert MergeChildren(C31, 5, 0, 6) == C32;
    SameShapeWf(C31, C32);
  }

  ghost method CStep263()
    ensures Wf(C31)
    ensures UpdateIndices(C31, 5, 7) == C32
    ensures Wf(C32)
  {
    assert 'o' in C31.nodes[5].edges;
    CStep250();
    CStep262();
    assert UpdateIndices(C31, 5, 7) == C32;
    SameShapeWf(C31, C32);
  }

  ghost method CStep264()
    ensures Wf(C31)
    ensures TakeChild(C31, 0, 4, 7) == C32
    ensures Wf(C32)
  {
    CSame264();
    assert C31.edges[4].dest == 5;
    assert C32.nodes[0].ids == {0, 1} && C32.nodes[5].ids == {0, 1};
    CStep250();
    CStep263();
    assert TakeChild(C31, 0, 4, 7) == SetNode(C32, 0, AddIndices(C32.nodes[0], C32.nodes[5].ids));
    assert TakeChild(C31, 0, 4, 7) == C32;
    SameShapeWf(C31, C32);
  }

  ghost method CStep265()
    ensures Wf(C32)
    ensures UpdateIndices(C32, 7, 7) == C32
  {
    assert C32.nodes[7].edges == map[];
    CStep252();
  }

  ghost method CStep266()
    ensures Wf(C32)
    ensures TakeChild(C32, 0, 6, 7) == C32
  {
    CSame266();
    assert C32.edges[6].dest == 7;
    assert C32.nodes[0].ids == {0, 1} && C32.nodes[7].ids == {0, 1};
    CStep252();
    CStep265();
    assert TakeChild(C32, 0, 6, 7) == SetNode(C32, 0, AddIndices(C32.nodes[0], C32.nodes[7].ids));
  }

  ghost method CStep267()
    ensures Wf(C32)
    ensures MergeChildren(C32, 0, 7, 7) == C32
  {
    CStep252();
  }

  ghost method CStep268()
    ensures Wf(C32)
    ensures MergeChildren(C32, 0, 6, 7) == C32
  {
    assert C32.nodes[0].edges['o'] == 6;
    CStep252();
    CStep266();
    CStep267();
  }

  ghost method CStep269()
    ensures Wf(C32)
    ensures MergeChildren(C32, 0, 5, 7) == C32
  {
    assert 5 !in C32.nodes[0].edges.Values;
    CStep252();
    CStep268();
  }

  ghost method CStep270()
    ensures Wf(C31)
    ensures MergeChildren(C31, 0, 4, 7) == C32
    ensures Wf(C32)
  {
    assert C31.nodes[0].edges['a'] == 4;
    CStep250();
    CStep264();
    CStep269();
    assert MergeChildren(C31, 0, 4, 7) == C32;
    SameShapeWf(C31, C32);
  }

  ghost method CStep271()
    ensures Wf(C31)
    ensures MergeChildren(C31, 0, 3, 7) == C32
    ensures Wf(C32)
  {
    assert 3 !in C31.nodes[0].edges.Values;
    CStep250();
    CStep270();
    assert MergeChildren(C31, 0, 3, 7) == C32;
    SameShapeWf(C31, C32);
  }

  ghost method CStep272()
    ensures Wf(C29)
    ensures MergeChildren(C29, 0, 2, 7) == C32
    ensures Wf(C32)
  {
    assert C29.nodes[0].edges['c'] == 2;
    CStep202();
    CStep250();
    CStep271();
    assert MergeChildren(C29, 0, 2, 7) == C32;
    SameShapeWf(C29, C32);
  }

  ghost method CStep273()
    ensures Wf(C29)
    ensures MergeChildren(C29, 0, 1, 7) == C32
    ensures Wf(C32)
  {
    assert 1 !in C29.nodes[0].edges.Values;
    CStep202();
    CStep272();
    assert MergeChildren(C29, 0, 1, 7) == C32;
    SameShapeWf(C29, C32);
  }

  ghost method CStep274()
    ensures Wf(C29)
    ensures MergeChildren(C29, 0, 0, 7) == C32
    ensures Wf(C32)
  {
    assert 0 !in C29.nodes[0].edges.Values;
    CStep202();
    CStep273();
    assert MergeChildren(C29, 0, 0, 7) == C32;
    SameShapeWf(C29, C32);
  }

  ghost method CStep275()
    ensures Wf(C29)
    ensures UpdateIndices(C29, 0, 8) == C32
    ensures Wf(C32)
  {
    assert 'o' in C29.nodes[0].edges;
    CStep202();
    CStep274();
    assert UpdateIndices(C29, 0, 8) == C32;
    SameShapeWf(C29, C32);
  }

  ghost method CStep276()
    ensures Wf(C29)
    ensures Flush(C29) == C32
    ensures Wf(C32)
  {
    CStep202();
    CStep275();
  }

  ghost method CStep277()
    ensures Wf(C32)
    ensures SearchFrom(C32, 0, "c", 0) == Some(3)
  {
    assert RegionMatches("c", 0, "ca", 1);
    assert 'c' in C32.nodes[0].edges && C32.nodes[0].edges['c'] == 2;
    assert C32.edges[2] == Edge("ca", 3);
    assert GetEdge(C32.nodes[0], 'c') == 2;
    CStep252();
  }

  ghost method CStep278()
    ensures Wf(C32)
    ensures Search(C32, "c") == Some({0, 1})
  {
    assert C32.nodes[3].ids == {0, 1};
    CStep252();
    CStep277();
  }

  ghost method CStep279()
    ensures Wf(C32)
    ensures SearchFrom(C32, 0, "ca", 0) == Some(3)
  {
    assert RegionMatches("ca", 0, "ca", 2);
    assert 'c' in C32.nodes[0].edges && C32.nodes[0].edges['c'] == 2;
    assert C32.edges[2] == Edge("ca", 3);
    assert GetEdge(C32.nodes[0], 'c') == 2;
    CStep252();
  }

  ghost method CStep280()
    ensures Wf(C32)
    ensures Search(C32, "ca") == Some({0, 1})
  {
    assert C32.nodes[3].ids == {0, 1};
    CStep252();
    CStep279();
  }

  ghost method CStep281()
    ensures Wf(C32)
    ensures SearchFrom(C32, 3, "cac", 2) == Some(1)
  {
    assert RegionMatches("cac", 2, "cao", 1);
    assert 'c' in C32.nodes[3].edges && C32.nodes[3].edges['c'] == 0;
    assert C32.edges[0] == Edge("cao", 1);
    assert GetEdge(C32.nodes[3], 'c') == 0;
    CStep252();
  }

  ghost method CStep282()
    ensures Wf(C32)
    ensures SearchFrom(C32, 0, "cac", 0) == Some(1)
  {
    assert RegionMatches("cac", 0, "ca", 2);
    assert 'c' in C32.nodes[0].edges && C32.nodes[0].edges['c'] == 2;
    assert C32.edges[2] == Edge("ca", 3);
    assert GetEdge(C32.nodes[0], 'c') == 2;
    CStep252();
    CStep281();
  }

  ghost method CStep283()
    ensures Wf(C32)
    ensures Search(C32, "cac") == Some({0, 1})
  {
    assert C32.nodes[1].ids == {0, 1};
    CStep252();
    CStep282();
  }

  ghost method CStep284()
    ensures Wf(C32)
    ensures SearchFrom(C32, 3, "caca", 2) == Some(1)
  {
    assert RegionMatches("caca", 2, "cao", 2);
    assert 'c' in C32.nodes[3].edges && C32.nodes[3].edges['c'] == 0;
    assert C32.edges[0] == Edge("cao", 1);
    assert GetEdge(C32.nodes[3], 'c') == 0;
    CStep252();
  }

  ghost method CStep285()
    ensures Wf(C32)
    ensures SearchFrom(C32, 0, "caca", 0) == Some(1)
  {
    assert RegionMatches("caca", 0, "ca", 2);
    assert 'c' in C32.nodes[0].edges && C32.nodes[0].edges['c'] == 2;
    assert C32.edges[2] == Edge("ca", 3);
    assert GetEdge(C32.nodes[0], 'c') == 2;
    CStep252();
    CStep284();
  }

  ghost method CStep286()
    ensures Wf(C32)
    ensures Search(C32, "caca") == Some({0, 1})
  {
    assert C32.nodes[1].ids == {0, 1};
    CStep252();
    CStep285();
  }

  ghost method CStep287()
    ensures Wf(C32)
    ensures SearchFrom(C32, 3, "cacao", 2) == Some(1)
  {
    assert RegionMatches("cacao", 2, "cao", 3);
    assert 'c' in C32.nodes[3].edges && C32.nodes[3].edges['c'] == 0;
    assert C32.edges[0] == Edge("cao", 1);
    assert GetEdge(C32.nodes[3], 'c') == 0;
    CStep252();
  }

  ghost method CStep288()
    ensures Wf(C32)
    ensures SearchFrom(C32, 0, "cacao", 0) == Some(1)
  {
    assert RegionMatches("cacao", 0, "ca", 2);
    assert 'c' in C32.nodes[0].edges && C32.nodes[0].edges['c'] == 2;
    assert C32.edges[2] == Edge("ca", 3);
    assert GetEdge(C32.nodes[0], 'c') == 2;
    CStep252();
    CStep287();
  }

  ghost method CStep289()
    ensures Wf(C32)
    ensures Search(C32, "cacao") == Some({0, 1})
  {
    assert C32.nodes[1].ids == {0, 1};
    CStep252();
    CStep288();
  }

  ghost method CStep290()
    ensures Wf(C32)
    ensures SearchFrom(C32, 0, "a", 0) == Some(5)
  {
    assert RegionMatches("a", 0, "a", 1);
    assert 'a' in C32.nodes[0].edges && C32.nodes[0].edges['a'] == 4;
    assert C32.edges[4] == Edge("a", 5);
    assert GetEdge(C32.nodes[0], 'a') == 4;
    CStep252();
  }

  ghost method CStep291()
    ensures Wf(C32)
    ensures Search(C32, "a") == Some({0, 1})
  {
    assert C32.nodes[5].ids == {0, 1};
    CStep252();
    CStep290();
  }

  ghost method CStep292()
    ensures Wf(C32)
    ensures SearchFrom(C32, 5, "ac", 1) == Some(2)
  {
    assert RegionMatches("ac", 1, "cao", 1);
    assert 'c' in C32.nodes[5].edges && C32.nodes[5].edges['c'] == 1;
    assert C32.edges[1] == Edge("cao", 2);
    assert GetEdge(C32.nodes[5], 'c') == 1;
    CStep252();
  }

  ghost method CStep293()
    ensures Wf(C32)
    ensures SearchFrom(C32, 0, "ac", 0) == Some(2)
  {
    assert RegionMatches("ac", 0, "a", 1);
    assert 'a' in C32.nodes[0].edges && C32.nodes[0].edges['a'] == 4;
    assert C32.edges[4] == Edge("a", 5);
    assert GetEdge(C32.nodes[0], 'a') == 4;
    CStep252();
    CStep292();
  }

  ghost method CStep294()
    ensures Wf(C32)
    ensures Search(C32, "ac") == Some({0, 1})
  {
    assert C32.nodes[2].ids == {0, 1};
    CStep252();
    CStep293();
  }

  ghost method CStep295()
    ensures Wf(C32)
    ensures SearchFrom(C32, 5, "aca", 1) == Some(2)
  {
    assert RegionMatches("aca", 1, "cao", 2);
    assert 'c' in C32.nodes[5].edges && C32.nodes[5].edges['c'] == 1;
    assert C32.edges[1] == Edge("cao", 2);
    assert GetEdge(C32.nodes[5], 'c') == 1;
    CStep252();
  }

  ghost method CStep296()
    ensures Wf(C32)
    ensures SearchFrom(C32, 0, "aca", 0) == Some(2)
  {
    assert RegionMatches("aca", 0, "a", 1);
    assert 'a' in C32.nodes[0].edges && C32.nodes[0].edges['a'] == 4;
    assert C32.edges[4] == Edge("a", 5);
    assert GetEdge(C32.nodes[0], 'a') == 4;
    CStep252();
    CStep295();
  }

  ghost method CStep297()
    ensures Wf(C32)
    ensures Search(C32, "aca") == Some({0, 1})
  {
    assert C32.nodes[2].ids == {0, 1};
    CStep252();
    CStep296();
  }

  ghost method CStep298()
    ensures Wf(C32)
    ensures SearchFrom(C32, 5, "acao", 1) == Some(2)
  {
    assert RegionMatches("acao", 1, "cao", 3);
    assert 'c' in C32.nodes[5].edges && C32.nodes[5].edges['c'] == 1;
    assert C32.edges[1] == Edge("cao", 2);
    assert GetEdge(C32.nodes[5], 'c') == 1;
    CStep252();
  }

  ghost method CStep299()
    ensures Wf(C32)
    ensures SearchFrom(C32, 0, "acao", 0) == Some(2)
  {
    assert RegionMatches("acao", 0, "a", 1);
    assert 'a' in C32.nodes[0].edges && C32.nodes[0].edges['a'] == 4;
    assert C32.edges[4] == Edge("a", 5);
    assert GetEdge(C32.nodes[0], 'a') == 4;
    CStep252();
    CStep298();
  }

  ghost method CStep300()
    ensures Wf(C32)
    ensures Search(C32, "acao") == Some({0, 1})
  {
    assert C32.nodes[2].ids == {0, 1};
    CStep252();
    CStep299();
  }

  ghost method CStep301()
    ensures Wf(C32)
    ensures SearchFrom(C32, 3, "cao", 2) == Some(4)
  {
    assert RegionMatches("cao", 2, "o", 1);
    assert 'o' in C32.nodes[3].edges && C32.nodes[3].edges['o'] == 3;
    assert C32.edges[3] == Edge("o", 4);
    assert GetEdge(C32.nodes[3], 'o') == 3;
    CStep252();
  }

  ghost method CStep302()
    ensures Wf(C32)
    ensures SearchFrom(C32, 0, "cao", 0) == Some(4)
  {
    assert RegionMatches("cao", 0, "ca", 2);
    assert 'c' in C32.nodes[0].edges && C32.nodes[0].edges['c'] == 2;
    assert C32.edges[2] == Edge("ca", 3);
    assert GetEdge(C32.nodes[0], 'c') == 2;
    CStep252();
    CStep301();
  }

  ghost method CStep303()
    ensures Wf(C32)
    ensures Search(C32, "cao") == Some({0, 1})
  {
    assert C32.nodes[4].ids == {0, 1};
    CStep252();
    CStep302();
  }

  ghost method CStep304()
    ensures Wf(C32)
    ensures SearchFrom(C32, 5, "ao", 1) == Some(6)
  {
    assert RegionMatches("ao", 1, "o", 1);
    assert 'o' in C32.nodes[5].edges && C32.nodes[5].edges['o'] == 5;
    assert C32.edges[5] == Edge("o", 6);
    assert GetEdge(C32.nodes[5], 'o') == 5;
    CStep252();
  }

  ghost method CStep305()
    ensures Wf(C32)
    ensures SearchFrom(C32, 0, "ao", 0) == Some(6)
  {
    assert RegionMatches("ao", 0, "a", 1);
    assert 'a' in C32.nodes[0].edges && C32.nodes[0].edges['a'] == 4;
    assert C32.edges[4] == Edge("a", 5);
    assert GetEdge(C32.nodes[0], 'a') == 4;
    CStep252();
    CStep304();
  }

  ghost method CStep306()
    ensures Wf(C32)
    ensures Search(C32, "ao") == Some({0, 1})
  {
    assert C32.nodes[6].ids == {0, 1};
    CStep252();
    CStep305();
  }

  ghost method CStep307()
    ensures Wf(C32)
    ensures SearchFrom(C32, 0, "o", 0) == Some(7)
  {
    assert RegionMatches("o", 0, "o", 1);
    assert 'o' in C32.nodes[0].edges && C32.nodes[0].edges['o'] == 6;
    assert C32.edges[6] == Edge("o", 7);
    assert GetEdge(C32.nodes[0], 'o') == 6;
    CStep252();
  }

  ghost method CStep308()
    ensures Wf(C32)
    ensures Search(C32, "o") == Some({0, 1})
  {
    assert C32.nodes[7].ids == {0, 1};
    CStep252();
    CStep307();
  }

  ghost method CSame3()
    ensures (Tree(C0.nodes[0 := AddEdge(C0.nodes[0], 'c', 0)] + [Node({0}, map[], -1)], C0.edges + [Edge("cacao", 1)], C0.last, C0.root, C0.activeLeaf), 1) == (C1, 1)
  {
    var a := (Tree(C0.nodes[0 := AddEdge(C0.nodes[0], 'c', 0)] + [Node({0}, map[], -1)], C0.edges + [Edge("cacao", 1)], C0.last, C0.root, C0.activeLeaf), 1);
    assert a.0.nodes[0] == C1.nodes[0];
    assert a.0.nodes[1] == C1.nodes[1];
    assert a.0.nodes == C1.nodes;
    assert a.0.edges == C1.edges;
  }

  ghost method CSame21()
    ensures (Tree(C2.nodes[0 := AddEdge(C2.nodes[0], 'a', 1)] + [Node({0}, map[], -1)], C2.edges + [Edge("acao", 2)], C2.last, C2.root, C2.activeLeaf), 2) == (C3, 2)
  {
    var a := (Tree(C2.nodes[0 := AddEdge(C2.nodes[0], 'a', 1)] + [Node({0}, map[], -1)], C2.edges + [Edge("acao", 2)], C2.last, C2.root, C2.activeLeaf), 2);
    assert a.0.nodes[0] == C3.nodes[0];
    assert a.0.nodes[1] == C3.nodes[1];
    assert a.0.nodes[2] == C3.nodes[2];
    assert a.0.nodes == C3.nodes;
    assert a.0.edges == C3.edges;
  }

  ghost method CSame22()
    ensures SetNode(C3, 1, SetSuffix(C3.nodes[1], 2)) == C4
  {
    var a := SetNode(C3, 1, SetSuffix(C3.nodes[1], 2));
    assert a.nodes[0] == C4.nodes[0];
    assert a.nodes[1] == C4.nodes[1];
    assert a.nodes[2] == C4.nodes[2];
    assert a.nodes == C4.nodes;
    assert a.edges == C4.edges;
  }

  ghost method CSame55()
    ensures (Tree(C6.nodes[3 := AddEdge(C6.nodes[3], 'o', 3)] + [Node({0}, map[], -1)], C6.edges + [Edge("o", 4)], C6.last, C6.root, C6.activeLeaf), 4) == (C7, 4)
  {
    var a := (Tree(C6.nodes[3 := AddEdge(C6.nodes[3], 'o', 3)] + [Node({0}, map[], -1)], C6.edges + [Edge("o", 4)], C6.last, C6.root, C6.activeLeaf), 4);
    assert a.0.nodes[0] == C7.nodes[0];
    assert a.0.nodes[1] == C7.nodes[1];
    assert a.0.nodes[2] == C7.nodes[2];
    assert a.0.nodes[3] == C7.nodes[3];
    assert a.0.nodes[4] == C7.nodes[4];
    assert a.0.nodes == C7.nodes;
    assert a.0.edges == C7.edges;
  }

  ghost method CSame56()
    ensures SetNode(C7, 2, SetSuffix(C7.nodes[2], 4)) == C8
  {
    var a := SetNode(C7, 2, SetSuffix(C7.nodes[2], 4));
    assert a.nodes[0] == C8.nodes[0];
    assert a.nodes[1] == C8.nodes[1];
    assert a.nodes[2] == C8.nodes[2];
    assert a.nodes[3] == C8.nodes[3];
    assert a.nodes[4] == C8.nodes[4];
    assert a.nodes == C8.nodes;
    assert a.edges == C8.edges;
  }

  ghost method CSame66()
    ensures (Tree(C10.nodes[5 := AddEdge(C10.nodes[5], 'o', 5)] + [Node({0}, map[], -1)], C10.edges + [Edge("o", 6)], C10.last, C10.root, C10.activeLeaf), 6) == (C11, 6)
  {
    var a := (Tree(C10.nodes[5 := AddEdge(C10.nodes[5], 'o', 5)] + [Node({0}, map[], -1)], C10.edges + [Edge("o", 6)], C10.last, C10.root, C10.activeLeaf), 6);
    assert a.0.nodes[0] == C11.nodes[0];
    assert a.0.nodes[1] == C11.nodes[1];
    assert a.0.nodes[2] == C11.nodes[2];
    assert a.0.nodes[3] == C11.nodes[3];
    assert a.0.nodes[4] == C11.nodes[4];
    assert a.0.nodes[5] == C11.nodes[5];
    assert a.0.nodes[6] == C11.nodes[6];
    assert a.0.nodes == C11.nodes;
    assert a.0.edges == C11.edges;
  }

  ghost method CSame67()
    ensures SetNode(C11, 4, SetSuffix(C11.nodes[4], 6)) == C12
  {
    var a := SetNode(C11, 4, SetSuffix(C11.nodes[4], 6));
    assert a.nodes[0] == C12.nodes[0];
    assert a.nodes[1] == C12.nodes[1];
    assert a.nodes[2] == C12.nodes[2];
    assert a.nodes[3] == C12.nodes[3];
    assert a.nodes[4] == C12.nodes[4];
    assert a.nodes[5] == C12.nodes[5];
    assert a.nodes[6] == C12.nodes[6];
    assert a.nodes == C12.nodes;
    assert a.edges == C12.edges;
  }

  ghost method CSame68()
    ensures SetNode(C13, 3, SetSuffix(C13.nodes[3], 5)) == C14
  {
    var a := SetNode(C13, 3, SetSuffix(C13.nodes[3], 5));
    assert a.nodes[0] == C14.nodes[0];
    assert a.nodes[1] == C14.nodes[1];
    assert a.nodes[2] == C14.nodes[2];
    assert a.nodes[3] == C14.nodes[3];
    assert a.nodes[4] == C14.nodes[4];
    assert a.nodes[5] == C14.nodes[5];
    assert a.nodes[6] == C14.nodes[6];
    assert a.nodes == C14.nodes;
    assert a.edges == C14.edges;
  }

  ghost method CSame75()
    ensures (Tree(C14.nodes[0 := AddEdge(C14.nodes[0], 'o', 6)] + [Node({0}, map[], -1)], C14.edges + [Edge("o", 7)], C14.last, C14.root, C14.activeLeaf), 7) == (C15, 7)
  {
    var a := (Tree(C14.nodes[0 := AddEdge(C14.nodes[0], 'o', 6)] + [Node({0}, map[], -1)], C14.edges + [Edge("o", 7)], C14.last, C14.root, C14.activeLeaf), 7);
    assert a.0.nodes[0] == C15.nodes[0];
    assert a.0.nodes[1] == C15.nodes[1];
    assert a.0.nodes[2] == C15.nodes[2];
    assert a.0.nodes[3] == C15.nodes[3];
    assert a.0.nodes[4] == C15.nodes[4];
    assert a.0.nodes[5] == C15.nodes[5];
    assert a.0.nodes[6] == C15.nodes[6];
    assert a.0.nodes[7] == C15.nodes[7];
    assert a.0.nodes == C15.nodes;
    assert a.0.edges == C15.edges;
  }

  ghost method CSame76()
    ensures SetNode(C15, 6, SetSuffix(C15.nodes[6], 7)) == C16
  {
    var a := SetNode(C15, 6, SetSuffix(C15.nodes[6], 7));
    assert a.nodes[0] == C16.nodes[0];
    assert a.nodes[1] == C16.nodes[1];
    assert a.nodes[2] == C16.nodes[2];
    assert a.nodes[3] == C16.nodes[3];
    assert a.nodes[4] == C16.nodes[4];
    assert a.nodes[5] == C16.nodes[5];
    assert a.nodes[6] == C16.nodes[6];
    assert a.nodes[7] == C16.nodes[7];
    assert a.nodes == C16.nodes;
    assert a.edges == C16.edges;
  }

  ghost method CSame77()
    ensures SetNode(C17, 5, SetSuffix(C17.nodes[5], 0)) == C18
  {
    var a := SetNode(C17, 5, SetSuffix(C17.nodes[5], 0));
    assert a.nodes[0] == C18.nodes[0];
    assert a.nodes[1] == C18.nodes[1];
    assert a.nodes[2] == C18.nodes[2];
    assert a.nodes[3] == C18.nodes[3];
    assert a.nodes[4] == C18.nodes[4];
    assert a.nodes[5] == C18.nodes[5];
    assert a.nodes[6] == C18.nodes[6];
    assert a.nodes[7] == C18.nodes[7];
    assert a.nodes == C18.nodes;
    assert a.edges == C18.edges;
  }

  ghost method CSame98()
    ensures SetNode(C18, 7, SetSuffix(C18.nodes[7], 0)) == C19
  {
    var a := SetNode(C18, 7, SetSuffix(C18.nodes[7], 0));
    assert a.nodes[0] == C19.nodes[0];
    assert a.nodes[1] == C19.nodes[1];
    assert a.nodes[2] == C19.nodes[2];
    assert a.nodes[3] == C19.nodes[3];
    assert a.nodes[4] == C19.nodes[4];
    assert a.nodes[5] == C19.nodes[5];
    assert a.nodes[6] == C19.nodes[6];
    assert a.nodes[7] == C19.nodes[7];
    assert a.nodes == C19.nodes;
    assert a.edges == C19.edges;
  }

  ghost method CSame101()
    ensures SetNode(C19, 3, AddIndices(C19.nodes[3], C19.nodes[1].ids)) == C20
  {
    var a := SetNode(C19, 3, AddIndices(C19.nodes[3], C19.nodes[1].ids));
    assert a.nodes[0] == C20.nodes[0];
    assert a.nodes[1] == C20.nodes[1];
    assert a.nodes[2] == C20.nodes[2];
    assert a.nodes[3] == C20.nodes[3];
    assert a.nodes[4] == C20.nodes[4];
    assert a.nodes[5] == C20.nodes[5];
    assert a.nodes[6] == C20.nodes[6];
    assert a.nodes[7] == C20.nodes[7];
    assert a.nodes == C20.nodes;
    assert a.edges == C20.edges;
  }

  ghost method CSame103()
    ensures SetNode(C20, 3, AddIndices(C20.nodes[3], C20.nodes[4].ids)) == C20
  {
    var a := SetNode(C20, 3, AddIndices(C20.nodes[3], C20.nodes[4].ids));
    assert a.nodes[0] == C20.nodes[0];
    assert a.nodes[1] == C20.nodes[1];
    assert a.nodes[2] == C20.nodes[2];
    assert a.nodes[3] == C20.nodes[3];
    assert a.nodes[4] == C20.nodes[4];
    assert a.nodes[5] == C20.nodes[5];
    assert a.nodes[6] == C20.nodes[6];
    assert a.nodes[7] == C20.nodes[7];
    assert a.nodes == C20.nodes;
    assert a.edges == C20.edges;
  }

  ghost method CSame113()
    ensures SetNode(C20, 0, AddIndices(C20.nodes[0], C20.nodes[3].ids)) == C21
  {
    var a := SetNode(C20, 0, AddIndices(C20.nodes[0], C20.nodes[3].ids));
    assert a.nodes[0] == C21.nodes[0];
    assert a.nodes[1] == C21.nodes[1];
    assert a.nodes[2] == C21.nodes[2];
    assert a.nodes[3] == C21.nodes[3];
    assert a.nodes[4] == C21.nodes[4];
    assert a.nodes[5] == C21.nodes[5];
    assert a.nodes[6] == C21.nodes[6];
    assert a.nodes[7] == C21.nodes[7];
    assert a.nodes == C21.nodes;
    assert a.edges == C21.edges;
  }

  ghost method CSame115()
    ensures SetNode(C21, 5, AddIndices(C21.nodes[5], C21.nodes[2].ids)) == C22
  {
    var a := SetNode(C21, 5, AddIndices(C21.nodes[5], C21.nodes[2].ids));
    assert a.nodes[0] == C22.nodes[0];
    assert a.nodes[1] == C22.nodes[1];
    assert a.nodes[2] == C22.nodes[2];
    assert a.nodes[3] == C22.nodes[3];
    assert a.nodes[4] == C22.nodes[4];
    assert a.nodes[5] == C22.nodes[5];
    assert a.nodes[6] == C22.nodes[6];
    assert a.nodes[7] == C22.nodes[7];
    assert a.nodes == C22.nodes;
    assert a.edges == C22.edges;
  }

  ghost method CSame117()
    ensures SetNode(C22, 5, AddIndices(C22.nodes[5], C22.nodes[6].ids)) == C22
  {
    var a := SetNode(C22, 5, AddIndices(C22.nodes[5], C22.nodes[6].ids));
    assert a.nodes[0] == C22.nodes[0];
    assert a.nodes[1] == C22.nodes[1];
    assert a.nodes[2] == C22.nodes[2];
    assert a.nodes[3] == C22.nodes[3];
    assert a.nodes[4] == C22.nodes[4];
    assert a.nodes[5] == C22.nodes[5];
    assert a.nodes[6] == C22.nodes[6];
    assert a.nodes[7] == C22.nodes[7];
    assert a.nodes == C22.nodes;
    assert a.edges == C22.edges;
  }

  ghost method CSame127()
    ensures SetNode(C22, 0, AddIndices(C22.nodes[0], C22.nodes[5].ids)) == C22
  {
    var a := SetNode(C22, 0, AddIndices(C22.nodes[0], C22.nodes[5].ids));
    assert a.nodes[0] == C22.nodes[0];
    assert a.nodes[1] == C22.nodes[1];
    assert a.nodes[2] == C22.nodes[2];
    assert a.nodes[3] == C22.nodes[3];
    assert a.nodes[4] == C22.nodes[4];
    assert a.nodes[5] == C22.nodes[5];
    assert a.nodes[6] == C22.nodes[6];
    assert a.nodes[7] == C22.nodes[7];
    assert a.nodes == C22.nodes;
    assert a.edges == C22.edges;
  }

  ghost method CSame129()
    ensures SetNode(C22, 0, AddIndices(C22.nodes[0], C22.nodes[7].ids)) == C22
  {
    var a := SetNode(C22, 0, AddIndices(C22.nodes[0], C22.nodes[7].ids));
    assert a.nodes[0] == C22.nodes[0];
    assert a.nodes[1] == C22.nodes[1];
    assert a.nodes[2] == C22.nodes[2];
    assert a.nodes[3] == C22.nodes[3];
    assert a.nodes[4] == C22.nodes[4];
    assert a.nodes[5] == C22.nodes[5];
    assert a.nodes[6] == C22.nodes[6];
    assert a.nodes[7] == C22.nodes[7];
    assert a.nodes == C22.nodes;
    assert a.edges == C22.edges;
  }

  ghost method CSame197()
    ensures SetNode(C23, 1, AddIdx(C23.nodes[1], 1)) == C24
  {
    var a := SetNode(C23, 1, AddIdx(C23.nodes[1], 1));
    assert a.nodes[0] == C24.nodes[0];
    assert a.nodes[1] == C24.nodes[1];
    assert a.nodes[2] == C24.nodes[2];
    assert a.nodes[3] == C24.nodes[3];
    assert a.nodes[4] == C24.nodes[4];
    assert a.nodes[5] == C24.nodes[5];
    assert a.nodes[6] == C24.nodes[6];
    assert a.nodes[7] == C24.nodes[7];
    assert a.nodes == C24.nodes;
    assert a.edges == C24.edges;
  }

  ghost method CSame198()
    ensures SetNode(C24, 2, AddIdx(C24.nodes[2], 1)) == C25
  {
    var a := SetNode(C24, 2, AddIdx(C24.nodes[2], 1));
    assert a.nodes[0] == C25.nodes[0];
    assert a.nodes[1] == C25.nodes[1];
    assert a.nodes[2] == C25.nodes[2];
    assert a.nodes[3] == C25.nodes[3];
    assert a.nodes[4] == C25.nodes[4];
    assert a.nodes[5] == C25.nodes[5];
    assert a.nodes[6] == C25.nodes[6];
    assert a.nodes[7] == C25.nodes[7];
    assert a.nodes == C25.nodes;
    assert a.edges == C25.edges;
  }

  ghost method CSame199()
    ensures SetNode(C25, 4, AddIdx(C25.nodes[4], 1)) == C26
  {
    var a := SetNode(C25, 4, AddIdx(C25.nodes[4], 1));
    assert a.nodes[0] == C26.nodes[0];
    assert a.nodes[1] == C26.nodes[1];
    assert a.nodes[2] == C26.nodes[2];
    assert a.nodes[3] == C26.nodes[3];
    assert a.nodes[4] == C26.nodes[4];
    assert a.nodes[5] == C26.nodes[5];
    assert a.nodes[6] == C26.nodes[6];
    assert a.nodes[7] == C26.nodes[7];
    assert a.nodes == C26.nodes;
    assert a.edges == C26.edges;
  }

  ghost method CSame200()
    ensures SetNode(C26, 6, AddIdx(C26.nodes[6], 1)) == C27
  {
    var a := SetNode(C26, 6, AddIdx(C26.nodes[6], 1));
    assert a.nodes[0] == C27.nodes[0];
    assert a.nodes[1] == C27.nodes[1];
    assert a.nodes[2] == C27.nodes[2];
    assert a.nodes[3] == C27.nodes[3];
    assert a.nodes[4] == C27.nodes[4];
    assert a.nodes[5] == C27.nodes[5];
    assert a.nodes[6] == C27.nodes[6];
    assert a.nodes[7] == C27.nodes[7];
    assert a.nodes == C27.nodes;
    assert a.edges == C27.edges;
  }

  ghost method CSame201()
    ensures SetNode(C27, 7, AddIdx(C27.nodes[7], 1)) == C28
  {
    var a := SetNode(C27, 7, AddIdx(C27.nodes[7], 1));
    assert a.nodes[0] == C28.nodes[0];
    assert a.nodes[1] == C28.nodes[1];
    assert a.nodes[2] == C28.nodes[2];
    assert a.nodes[3] == C28.nodes[3];
    assert a.nodes[4] == C28.nodes[4];
    assert a.nodes[5] == C28.nodes[5];
    assert a.nodes[6] == C28.nodes[6];
    assert a.nodes[7] == C28.nodes[7];
    assert a.nodes == C28.nodes;
    assert a.edges == C28.edges;
  }

  ghost method CSame202()
    ensures SetNode(C28, 0, AddIdx(C28.nodes[0], 1)) == C29
  {
    var a := SetNode(C28, 0, AddIdx(C28.nodes[0], 1));
    assert a.nodes[0] == C29.nodes[0];
    assert a.nodes[1] == C29.nodes[1];
    assert a.nodes[2] == C29.nodes[2];
    assert a.nodes[3] == C29.nodes[3];
    assert a.nodes[4] == C29.nodes[4];
    assert a.nodes[5] == C29.nodes[5];
    assert a.nodes[6] == C29.nodes[6];
    assert a.nodes[7] == C29.nodes[7];
    assert a.nodes == C29.nodes;
    assert a.edges == C29.edges;
  }

  ghost method CSame238()
    ensures SetNode(C29, 3, AddIndices(C29.nodes[3], C29.nodes[1].ids)) == C30
  {
    var a := SetNode(C29, 3, AddIndices(C29.nodes[3], C29.nodes[1].ids));
    assert a.nodes[0] == C30.nodes[0];
    assert a.nodes[1] == C30.nodes[1];
    assert a.nodes[2] == C30.nodes[2];
    assert a.nodes[3] == C30.nodes[3];
    assert a.nodes[4] == C30.nodes[4];
    assert a.nodes[5] == C30.nodes[5];
    assert a.nodes[6] == C30.nodes[6];
    assert a.nodes[7] == C30.nodes[7];
    assert a.nodes == C30.nodes;
    assert a.edges == C30.edges;
  }

  ghost method CSame240()
    ensures SetNode(C30, 3, AddIndices(C30.nodes[3], C30.nodes[4].ids)) == C30
  {
    var a := SetNode(C30, 3, AddIndices(C30.nodes[3], C30.nodes[4].ids));
    assert a.nodes[0] == C30.nodes[0];
    assert a.nodes[1] == C30.nodes[1];
    assert a.nodes[2] == C30.nodes[2];
    assert a.nodes[3] == C30.nodes[3];
    assert a.nodes[4] == C30.nodes[4];
    assert a.nodes[5] == C30.nodes[5];
    assert a.nodes[6] == C30.nodes[6];
    assert a.nodes[7] == C30.nodes[7];
    assert a.nodes == C30.nodes;
    assert a.edges == C30.edges;
  }

  ghost method CSame250()
    ensures SetNode(C30, 0, AddIndices(C30.nodes[0], C30.nodes[3].ids)) == C31
  {
    var a := SetNode(C30, 0, AddIndices(C30.nodes[0], C30.nodes[3].ids));
    assert a.nodes[0] == C31.nodes[0];
    assert a.nodes[1] == C31.nodes[1];
    assert a.nodes[2] == C31.nodes[2];
    assert a.nodes[3] == C31.nodes[3];
    assert a.nodes[4] == C31.nodes[4];
    assert a.nodes[5] == C31.nodes[5];
    assert a.nodes[6] == C31.nodes[6];
    assert a.nodes[7] == C31.nodes[7];
    assert a.nodes == C31.nodes;
    assert a.edges == C31.edges;
  }

  ghost method CSame252()
    ensures SetNode(C31, 5, AddIndices(C31.nodes[5], C31.nodes[2].ids)) == C32
  {
    var a := SetNode(C31, 5, AddIndices(C31.nodes[5], C31.nodes[2].ids));
    assert a.nodes[0] == C32.nodes[0];
    assert a.nodes[1] == C32.nodes[1];
    assert a.nodes[2] == C32.nodes[2];
    assert a.nodes[3] == C32.nodes[3];
    assert a.nodes[4] == C32.nodes[4];
    assert a.nodes[5] == C32.nodes[5];
    assert a.nodes[6] == C32.nodes[6];
    assert a.nodes[7] == C32.nodes[7];
    assert a.nodes == C32.nodes;
    assert a.edges == C32.edges;
  }

  ghost method CSame254()
    ensures SetNode(C32, 5, AddIndices(C32.nodes[5], C32.nodes[6].ids)) == C32
  {
    var a := SetNode(C32, 5, AddIndices(C32.nodes[5], C32.nodes[6].ids));
    assert a.nodes[0] == C32.nodes[0];
    assert a.nodes[1] == C32.nodes[1];
    assert a.nodes[2] == C32.nodes[2];
    assert a.nodes[3] == C32.nodes[3];
    assert a.nodes[4] == C32.nodes[4];
    assert a.nodes[5] == C32.nodes[5];
    assert a.nodes[6] == C32.nodes[6];
    assert a.nodes[7] == C32.nodes[7];
    assert a.nodes == C32.nodes;
    assert a.edges == C32.edges;
  }

  ghost method CSame264()
    ensures SetNode(C32, 0, AddIndices(C32.nodes[0], C32.nodes[5].ids)) == C32
  {
    var a := SetNode(C32, 0, AddIndices(C32.nodes[0], C32.nodes[5].ids));
    assert a.nodes[0] == C32.nodes[0];
    assert a.nodes[1] == C32.nodes[1];
    assert a.nodes[2] == C32.nodes[2];
    assert a.nodes[3] == C32.nodes[3];
    assert a.nodes[4] == C32.nodes[4];
    assert a.nodes[5] == C32.nodes[5];
    assert a.nodes[6] == C32.nodes[6];
    assert a.nodes[7] == C32.nodes[7];
    assert a.nodes == C32.nodes;
    assert a.edges == C32.edges;
  }

  ghost method CSame266()
    ensures SetNode(C32, 0, AddIndices(C32.nodes[0], C32.nodes[7].ids)) == C32
  {
    var a := SetNode(C32, 0, AddIndices(C32.nodes[0], C32.nodes[7].ids));
    assert a.nodes[0] == C32.nodes[0];
    assert a.nodes[1] == C32.nodes[1];
    assert a.nodes[2] == C32.nodes[2];
    assert a.nodes[3] == C32.nodes[3];
    assert a.nodes[4] == C32.nodes[4];
    assert a.nodes[5] == C32.nodes[5];
    assert a.nodes[6] == C32.nodes[6];
    assert a.nodes[7] == C32.nodes[7];
    assert a.nodes == C32.nodes;
    assert a.edges == C32.edges;
  }

  /** Adding "aab" after "aa" succeeds: its last character takes three
      rounds of the update loop from an active point one edge below the
      root, more than the one round per character of the key so far. */
  ghost method RepeatThenExtend()
    ensures AddWord(EmptyTree(), "aa", 0) == Success(R6)
    ensures AddWord(R6, "aab", 1) == Success(R16)
  {
    assert EmptyTree() == R0;
    RStep40();
    RStep97();
  }

  /** The twelve distinct non-empty blocks of "cacao". */
  lemma CacaoBlocks(w: string)
    requires w != [] && IsSubstring(w, "cacao")
    ensures w in {"c", "ca", "cac", "caca", "cacao", "a", "ac", "aca", "acao", "cao", "ao", "o"}
  {
    var a, b :| 0 <= a <= b <= 5 && "cacao"[a..b] == w;
    assert a < b;
    if a == 0 {
      if b == 1 {
        assert "cacao"[0..1] == "c" by { assert "cacao"[0] == 'c'; }
      } else if b == 2 {
        assert "cacao"[0..2] == "ca" by { assert "cacao"[0] == 'c'; assert "cacao"[1] == 'a'; }
      } else if b == 3 {
        assert "cacao"[0..3] == "cac" by { assert "cacao"[0] == 'c'; assert "cacao"[1] == 'a'; assert "cacao"[2] == 'c'; }
      } else if b == 4 {
        assert "cacao"[0..4] == "caca" by { assert "cacao"[0] == 'c'; assert "cacao"[1] == 'a'; assert "cacao"[2] == 'c'; assert "cacao"[3] == 'a'; }
      } else {
        assert "cacao"[0..5] == "cacao" by { assert "cacao"[0] == 'c'; assert "cacao"[1] == 'a'; assert "cacao"[2] == 'c'; assert "cacao"[3] == 'a'; assert "cacao"[4] == 'o'; }
      }
    } else if a == 1 {
      if b == 2 {
        assert "cacao"[1..2] == "a" by { assert "cacao"[1] == 'a'; }
      } else if b == 3 {
        assert "cacao"[1..3] == "ac" by { assert "cacao"[1] == 'a'; assert "cacao"[2] == 'c'; }
      } else if b == 4 {
        assert "cacao"[1..4] == "aca" by { assert "cacao"[1] == 'a'; assert "cacao"[2] == 'c'; assert "cacao"[3] == 'a'; }
      } else {
        assert "cacao"[1..5] == "acao" by { assert "cacao"[1] == 'a'; assert "cacao"[2] == 'c'; assert "cacao"[3] == 'a'; assert "cacao"[4] == 'o'; }
      }
    } else if a == 2 {
      if b == 3 {
        assert "cacao"[2..3] == "c" by { assert "cacao"[2] == 'c'; }
      } else if b == 4 {
        assert "cacao"[2..4] == "ca" by { assert "cacao"[2] == 'c'; assert "cacao"[3] == 'a'; }
      } else {
        assert "cacao"[2..5] == "cao" by { assert "cacao"[2] == 'c'; assert "cacao"[3] == 'a'; assert "cacao"[4] == 'o'; }
      }
    } else if a == 3 {
      if b == 4 {
        assert "cacao"[3..4] == "a" by { assert "cacao"[3] == 'a'; }
      } else {
        assert "cacao"[3..5] == "ao" by { assert "cacao"[3] == 'a'; assert "cacao"[4] == 'o'; }
      }
    } else {
      assert "cacao"[4..5] == "o" by { assert "cacao"[4] == 'o'; }
    }
  }

  /** Searching the flushed tree of `CacaoFound`. */
  ghost method CacaoSearches()
    ensures Wf(C22)
    ensures forall w :: w != [] && IsSubstring(w, "cacao") ==> Search(C22, w) == Some({0})
    ensures Search(C22, "caco") == None
    ensures Search(C22, "cacaoo") == None
    ensures Search(C22, "ccacao") == None
  {
    CStep141();
    CStep143();
    CStep146();
    CStep149();
    CStep152();
    CStep154();
    CStep157();
    CStep160();
    CStep163();
    CStep166();
    CStep169();
    CStep171();
    CStep174();
    CStep178();
    CStep180();
    forall w | w != [] && IsSubstring(w, "cacao")
      ensures Search(C22, w) == Some({0})
    {
      CacaoBlocks(w);
    }
  }

  /** Adding "cacao" under id 0 to a new tree and flushing it: every
      non-empty block of the word is found with exactly that id, and
      "caco", "cacaoo" and "ccacao", which are not blocks of it, are not
      found. */
  ghost method CacaoFound()
    ensures AddWord(EmptyTree(), "cacao", 0) == Success(C19)
    ensures forall w :: w != [] && IsSubstring(w, "cacao") ==> Search(Flush(C19), w) == Some({0})
    ensures Search(Flush(C19), "caco") == None
    ensures Search(Flush(C19), "cacaoo") == None
    ensures Search(Flush(C19), "ccacao") == None
  {
    assert EmptyTree() == C0;
    CStep99();
    CStep139();
    CacaoSearches();
  }

  /** Searching the flushed tree of `CacaoTwice`. */
  ghost method CacaoTwiceSearches()
    ensures Wf(C32)
    ensures forall w :: w != [] && IsSubstring(w, "cacao") ==> Search(C32, w) == Some({0, 1})
  {
    CStep278();
    CStep280();
    CStep283();
    CStep286();
    CStep289();
    CStep291();
    CStep294();
    CStep297();
    CStep300();
    CStep303();
    CStep306();
    CStep308();
    forall w | w != [] && IsSubstring(w, "cacao")
      ensures Search(C32, w) == Some({0, 1})
    {
      CacaoBlocks(w);
    }
  }

  /** Adding "cacao" a second time, under id 1, before flushing: every
      non-empty block of the word is then found with both ids. */
  ghost method CacaoTwice()
    ensures AddWord(EmptyTree(), "cacao", 0) == Success(C19)
    ensures AddWord(C19, "cacao", 1) == Success(C29)
    ensures forall w :: w != [] && IsSubstring(w, "cacao") ==> Search(Flush(C29), w) == Some({0, 1})
  {
    assert EmptyTree() == C0;
    CStep99();
    CStep236();
    CStep276();
    CacaoTwiceSearches();
  }
}

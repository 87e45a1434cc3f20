/** The pinned first service: three rice beats and three orders, as one instance of the authored definition. */
module EveningPinned {
  import opened Basics
  import opened EveningCheckpoint
  import opened EveningScript
  import opened EveningTheorems
  import opened EveningRuns
  import opened EveningViews

  const KAPPA_STEPS: seq<Step> := [
      Step("layer-nori", "prompt.step.ceramicist-kappa.layer-nori", "cue.step.ceramicist-kappa.layer-nori", Some("nori-sheet")),
      Step("portion-rice", "prompt.step.ceramicist-kappa.portion-rice", "cue.step.ceramicist-kappa.portion-rice", Some("prepared-sushi-rice")),
      Step("place-cucumber", "prompt.step.ceramicist-kappa.place-cucumber", "cue.step.ceramicist-kappa.place-cucumber", Some("cucumber-strip")),
      Step("roll-kappa", "prompt.step.ceramicist-kappa.roll-kappa", "cue.step.ceramicist-kappa.roll-kappa", None),
      Step("cut-kappa", "prompt.step.ceramicist-kappa.cut-kappa", "cue.step.ceramicist-kappa.cut-kappa", None)
  ]

  const KAPPA: OrderDef := OrderDef(
    "ceramicist-kappa", "delighted", "guest.ceramicist.dialogue", "prompt.order.accept.ceramicist-kappa", KAPPA_STEPS,
    "prompt.plate.ceramicist-kappa", "feedback.plate.ceramicist-kappa", "feedback.serve.ceramicist-kappa",
    "ceramicist-first-service-served", "story.ceramicist.first-service")

  const TAMAGO_STEPS: seq<Step> := [
      Step("portion-rice", "prompt.step.fishmonger-tamago.portion-rice", "cue.step.fishmonger-tamago.portion-rice", Some("prepared-sushi-rice")),
      Step("press-rice", "prompt.step.fishmonger-tamago.press-rice", "cue.step.fishmonger-tamago.press-rice", None),
      Step("place-tamago", "prompt.step.fishmonger-tamago.place-tamago", "cue.step.fishmonger-tamago.place-tamago", Some("cooked-tamago")),
      Step("bind-tamago", "prompt.step.fishmonger-tamago.bind-tamago", "cue.step.fishmonger-tamago.bind-tamago", Some("nori-sheet"))
  ]

  const TAMAGO: OrderDef := OrderDef(
    "fishmonger-tamago", "content", "guest.fishmonger.dialogue", "prompt.order.accept.fishmonger-tamago", TAMAGO_STEPS,
    "prompt.plate.fishmonger-tamago", "feedback.plate.fishmonger-tamago", "feedback.serve.fishmonger-tamago",
    "fishmonger-first-service-served", "story.fishmonger.first-service")

  const SALMON_STEPS: seq<Step> := [
      Step("arrange-salmon", "prompt.step.courier-salmon.arrange-salmon", "cue.step.courier-salmon.arrange-salmon", None),
      Step("portion-rice", "prompt.step.courier-salmon.portion-rice", "cue.step.courier-salmon.portion-rice", Some("prepared-sushi-rice")),
      Step("press-rice", "prompt.step.courier-salmon.press-rice", "cue.step.courier-salmon.press-rice", None),
      Step("place-salmon", "prompt.step.courier-salmon.place-salmon", "cue.step.courier-salmon.place-salmon", Some("prepared-salmon-topping"))
  ]

  const SALMON: OrderDef := OrderDef(
    "courier-salmon", "content", "guest.courier.dialogue", "prompt.order.accept.courier-salmon", SALMON_STEPS,
    "prompt.plate.courier-salmon", "feedback.plate.courier-salmon", "feedback.serve.courier-salmon",
    "courier-first-service-served", "story.courier.first-service")

  const FIRST_SERVICE: Definition := Definition(
    "phase-1-evening-service-v1", "prompt.service.start", ["wash", "steam", "season"],
    map["wash" := "prompt.rice.wash", "steam" := "prompt.rice.steam", "season" := "prompt.rice.season"],
    "prompt.ledger.close", "prompt.restoration.choose", "prompt.service.settled", "prompt.service.abandoned",
    ["indigo-rim", "sand-speckle"], ["mend-counter-stool", "polish-display-shelf", "refresh-menu-board"],
    [KAPPA, TAMAGO, SALMON],
    ["cooked-tamago", "cucumber-strip", "nori-sheet", "prepared-salmon-topping", "prepared-sushi-rice"],
    "atlantic-salmon-sashimi@1")

  lemma PinnedIsAuthored()
    ensures Authored(FIRST_SERVICE)
  {
    var d := FIRST_SERVICE;
    assert d.orders[0].storyFlagId[0] == 'c' && d.orders[1].storyFlagId[0] == 'f' && d.orders[2].storyFlagId[1] == 'o';
    assert |d.orders[0].storyFlagId| != |d.orders[2].storyFlagId|;
  }

  /** Its authored work is the 29 commands the settled fixture shows as revision 29. */
  lemma PinnedWork()
    ensures |FIRST_SERVICE.riceBeats| + OrderWork(FIRST_SERVICE.orders) + 4 == 29
  {
    var defs := FIRST_SERVICE.orders;
    assert defs[..2] == [KAPPA, TAMAGO] && defs[..2][..1] == [KAPPA] && [KAPPA][..0] == [];
    assert OrderWork([KAPPA]) == 8 && OrderWork([KAPPA, TAMAGO]) == 15 && OrderWork(defs) == 22;
  }

  /** A number that tells the pinned prompts apart: length, eighth and last characters. */
  function Mark(prompt: string): int {
    if |prompt| <= 7 then 0 else |prompt| + 100 * (prompt[7] as int) + 100000 * (prompt[|prompt| - 1] as int)
  }

  lemma MarksOutsideOrders()
    ensures Mark("prompt.service.start") == 11611520
    ensures Mark("prompt.rice.wash") == 10411416
    ensures Mark("prompt.rice.steam") == 10911417
    ensures Mark("prompt.rice.season") == 11011418
    ensures Mark("prompt.presentation.choose") == 10111226
    ensures Mark("prompt.ledger.close") == 10110819
    ensures Mark("prompt.restoration.choose") == 10111425
    ensures Mark("prompt.service.settled") == 10011522
    ensures Mark("prompt.service.abandoned") == 10011524
  {
  }

  lemma MarksKappaSteps()
    ensures Mark(KAPPA.steps[0].promptRef) == 10511539
    ensures Mark(KAPPA.steps[1].promptRef) == 10111541
    ensures Mark(KAPPA.steps[2].promptRef) == 11411543
    ensures Mark(KAPPA.steps[3].promptRef) == 9711539
    ensures Mark(KAPPA.steps[4].promptRef) == 9711538
  {
  }

  lemma MarksKappa()
    ensures Mark(KAPPA.acceptPromptRef) == 9711136
    ensures Mark(KAPPA.platePromptRef) == 9711229
    ensures Mark("prompt.serve." + KAPPA.id) == 9711529
  {
    assert "prompt.serve." + KAPPA.id == "prompt.serve.ceramicist-kappa";
  }

  lemma MarksTamagoSteps()
    ensures Mark(TAMAGO.steps[0].promptRef) == 10111542
    ensures Mark(TAMAGO.steps[1].promptRef) == 10111540
    ensures Mark(TAMAGO.steps[2].promptRef) == 11111542
    ensures Mark(TAMAGO.steps[3].promptRef) == 11111541
  {
  }

  lemma MarksTamago()
    ensures Mark(TAMAGO.acceptPromptRef) == 11111137
    ensures Mark(TAMAGO.platePromptRef) == 11111230
    ensures Mark("prompt.serve." + TAMAGO.id) == 11111530
  {
    assert "prompt.serve." + TAMAGO.id == "prompt.serve.fishmonger-tamago";
  }

  lemma MarksSalmonSteps()
    ensures Mark(SALMON.steps[0].promptRef) == 11011541
    ensures Mark(SALMON.steps[1].promptRef) == 10111539
    ensures Mark(SALMON.steps[2].promptRef) == 10111537
    ensures Mark(SALMON.steps[3].promptRef) == 11011539
  {
  }

  lemma MarksSalmon()
    ensures Mark(SALMON.acceptPromptRef) == 11011134
    ensures Mark(SALMON.platePromptRef) == 11011227
    ensures Mark("prompt.serve." + SALMON.id) == 11011527
  {
    assert "prompt.serve." + SALMON.id == "prompt.serve.courier-salmon";
  }

  /** The stage a mark belongs to. */
  function MarkedStage(mark: int): Stage {
    if mark == 11611520 then Start else
    if mark == 10411416 then Rice(0) else
    if mark == 10911417 then Rice(1) else
    if mark == 11011418 then Rice(2) else
    if mark == 10111226 then Present else
    if mark == 10110819 then Close else
    if mark == 10111425 then Restore else
    if mark == 10011522 then Done else
    if mark == 10011524 then Stopped else
    MarkedKappa(mark)
  }

  function MarkedKappa(mark: int): Stage {
    if mark == 9711136 then AcceptOrder(0) else
    if mark == 10511539 then Perform(0, 0) else
    if mark == 10111541 then Perform(0, 1) else
    if mark == 11411543 then Perform(0, 2) else
    if mark == 9711539 then Perform(0, 3) else
    if mark == 9711538 then Perform(0, 4) else
    if mark == 9711229 then Plate(0) else
    if mark == 9711529 then Serve(0) else
    MarkedTamago(mark)
  }

  function MarkedTamago(mark: int): Stage {
    if mark == 11111137 then AcceptOrder(1) else
    if mark == 10111542 then Perform(1, 0) else
    if mark == 10111540 then Perform(1, 1) else
    if mark == 11111542 then Perform(1, 2) else
    if mark == 11111541 then Perform(1, 3) else
    if mark == 11111230 then Plate(1) else
    if mark == 11111530 then Serve(1) else
    MarkedSalmon(mark)
  }

  function MarkedSalmon(mark: int): Stage {
    if mark == 11011134 then AcceptOrder(2) else
    if mark == 11011541 then Perform(2, 0) else
    if mark == 10111539 then Perform(2, 1) else
    if mark == 10111537 then Perform(2, 2) else
    if mark == 11011539 then Perform(2, 3) else
    if mark == 11011227 then Plate(2) else
    if mark == 11011527 then Serve(2) else
    Start
  }

  lemma MarkedOutside(s: Stage)
    requires Authored(FIRST_SERVICE) && InScript(FIRST_SERVICE, s) && !s.AcceptOrder? && !s.Perform? && !s.Plate? && !s.Serve?
    ensures MarkedStage(Mark(PromptRef(FIRST_SERVICE, s))) == s
  {
    MarksOutsideOrders();
    hide Mark, Authored;
  }

  lemma MarkedKappaOrder(s: Stage)
    requires Authored(FIRST_SERVICE) && InScript(FIRST_SERVICE, s)
    requires (s.AcceptOrder? || s.Perform? || s.Plate? || s.Serve?) && ActiveAt(FIRST_SERVICE, s) == 0
    ensures MarkedStage(Mark(PromptRef(FIRST_SERVICE, s))) == s
  {
    MarksKappaSteps();
    MarksKappa();
    hide Mark, Authored;
    assert FIRST_SERVICE.orders[0] == KAPPA;
  }

  lemma MarkedTamagoOrder(s: Stage)
    requires Authored(FIRST_SERVICE) && InScript(FIRST_SERVICE, s)
    requires (s.AcceptOrder? || s.Perform? || s.Plate? || s.Serve?) && ActiveAt(FIRST_SERVICE, s) == 1
    ensures MarkedStage(Mark(PromptRef(FIRST_SERVICE, s))) == s
  {
    MarksTamagoSteps();
    MarksTamago();
    hide Mark, Authored;
    assert FIRST_SERVICE.orders[1] == TAMAGO;
  }

  lemma MarkedSalmonOrder(s: Stage)
    requires Authored(FIRST_SERVICE) && InScript(FIRST_SERVICE, s)
    requires (s.AcceptOrder? || s.Perform? || s.Plate? || s.Serve?) && ActiveAt(FIRST_SERVICE, s) == 2
    ensures MarkedStage(Mark(PromptRef(FIRST_SERVICE, s))) == s
  {
    MarksSalmonSteps();
    MarksSalmon();
    hide Mark, Authored;
    assert FIRST_SERVICE.orders[2] == SALMON;
  }

  lemma PinnedPromptsAreDistinct()
    ensures Authored(FIRST_SERVICE) && DistinctPrompts(FIRST_SERVICE)
  {
    PinnedIsAuthored();
    forall s | InScript(FIRST_SERVICE, s)
      ensures MarkedStage(Mark(PromptRef(FIRST_SERVICE, s))) == s
    {
      hide Mark, MarkedStage, PromptRef, Authored;
      if !s.AcceptOrder? && !s.Perform? && !s.Plate? && !s.Serve? { MarkedOutside(s); }
      else if ActiveAt(FIRST_SERVICE, s) == 0 { MarkedKappaOrder(s); }
      else if ActiveAt(FIRST_SERVICE, s) == 1 { MarkedTamagoOrder(s); }
      else { MarkedSalmonOrder(s); }
    }
    hide Mark, MarkedStage, PromptRef, Authored, InScript;
  }
}

/**
  Input events as the core sees them, and the start menu: three buttons,
  a selection that wraps round, and a difficulty clamped to 1..3.
 */
module Menus {
  import opened Grid

  /** The keys the core distinguishes; every other key is OtherKey. */
  datatype Key = UpKey | DownKey | LeftKey | RightKey | ReturnKey | EscapeKey | OtherKey

  /** A pygame event reduced to what the core reads of it. */
  datatype Event = KeyDown(key: Key) | Quit | OtherEvent

  datatype MenuAction = StartGame | ChooseDifficulty | ExitGame

  /** The buttons, top to bottom, by their action. */
  const Buttons: seq<MenuAction> := [StartGame, ChooseDifficulty, ExitGame]

  datatype MenuData = MenuData(selected: int, difficulty: int)

  predicate ValidMenu(m: MenuData)
  {
    0 <= m.selected < |Buttons| && 1 <= m.difficulty <= 3
  }

  /** handle_input: the new menu state and the action returned. */
  function AfterInput(m: MenuData, e: Event): (MenuData, Option<MenuAction>)
    requires 0 <= m.selected < |Buttons|
  {
    if !e.KeyDown? then (m, None)
    else match e.key
      case UpKey => (m.(selected := (m.selected - 1) % |Buttons|), None)
      case DownKey => (m.(selected := (m.selected + 1) % |Buttons|), None)
      case ReturnKey => (m, Some(Buttons[m.selected]))
      case LeftKey =>
        if Buttons[m.selected] == ChooseDifficulty
        then (m.(difficulty := if m.difficulty - 1 < 1 then 1 else m.difficulty - 1), None)
        else (m, None)
      case RightKey =>
        if Buttons[m.selected] == ChooseDifficulty
        then (m.(difficulty := if m.difficulty + 1 > 3 then 3 else m.difficulty + 1), None)
        else (m, None)
      case _ => (m, None)
  }

  class Menu {
    var selected: int
    var difficulty: int

    function View(): MenuData
      reads this
    {
      MenuData(selected, difficulty)
    }

    predicate Valid()
      reads this
    {
      ValidMenu(View())
    }

    constructor ()
      ensures View() == MenuData(0, 1) && Valid()
    {
      selected := 0;
      difficulty := 1;
    }

    method HandleInput(e: Event) returns (action: Option<MenuAction>)
      requires Valid()
      modifies this
      ensures Valid()
      ensures (View(), action) == AfterInput(old(View()), e)
    {
      action := None;
      if e.KeyDown? {
        if e.key == UpKey {
          selected := (selected - 1) % |Buttons|;
        } else if e.key == DownKey {
          selected := (selected + 1) % |Buttons|;
        } else if e.key == ReturnKey {
          action := Some(Buttons[selected]);
        } else if e.key == LeftKey && Buttons[selected] == ChooseDifficulty {
          difficulty := if difficulty - 1 < 1 then 1 else difficulty - 1;
        } else if e.key == RightKey && Buttons[selected] == ChooseDifficulty {
          difficulty := if difficulty + 1 > 3 then 3 else difficulty + 1;
        }
      }
    }
  }

  // ---------------------------------------------------------------
  // Lemmas
  // ---------------------------------------------------------------

  /** Every input keeps the selection on a button and the difficulty in 1..3. */
  lemma InputKeepsMenuValid(m: MenuData, e: Event)
    requires ValidMenu(m)
    ensures ValidMenu(AfterInput(m, e).0)
  {
  }

  /** Up wraps from the first button to the last and Down from the last to
      the first; Down undoes Up and Up undoes Down. */
  lemma SelectionWraps(m: MenuData)
    requires ValidMenu(m)
    ensures m.selected == 0 ==> AfterInput(m, KeyDown(UpKey)).0.selected == |Buttons| - 1
    ensures m.selected == |Buttons| - 1 ==> AfterInput(m, KeyDown(DownKey)).0.selected == 0
    ensures AfterInput(AfterInput(m, KeyDown(UpKey)).0, KeyDown(DownKey)).0 == m
    ensures AfterInput(AfterInput(m, KeyDown(DownKey)).0, KeyDown(UpKey)).0 == m
  {
  }

  /** Return reports the selected button's action and changes nothing; no
      other input reports an action. */
  lemma ReturnReportsSelection(m: MenuData, e: Event)
    requires ValidMenu(m)
    ensures AfterInput(m, e).1.Some? <==> e == KeyDown(ReturnKey)
    ensures e == KeyDown(ReturnKey) ==> AfterInput(m, e) == (m, Some(Buttons[m.selected]))
  {
  }

  /** Left and Right move the difficulty by one within 1..3, and only while
      the Difficulty button is selected; nothing else changes it. */
  lemma DifficultyClamped(m: MenuData, e: Event)
    requires ValidMenu(m)
    ensures var d := AfterInput(m, e).0.difficulty;
            if Buttons[m.selected] == ChooseDifficulty && e == KeyDown(LeftKey) then d == (if m.difficulty == 1 then 1 else m.difficulty - 1)
            else if Buttons[m.selected] == ChooseDifficulty && e == KeyDown(RightKey) then d == (if m.difficulty == 3 then 3 else m.difficulty + 1)
            else d == m.difficulty
  {
  }
}

/** The app picker's highlight (crates/oc-core/src/menu.rs). */
module Menu {
  import opened Ints
  import opened Buttons
  import opened Applets

  /** Net movement of the highlight on one tick: detents, and one per button action. */
  function Steps(pressed: PerButton, delta: i8): int
  {
    delta as int + (if pressed.down then 1 else 0) - (if pressed.up then 1 else 0)
  }

  predicate Launches(pressed: PerButton) { pressed.left || pressed.right }

  /** `rem_euclid` over the number of apps. */
  function Moved(selected: AppIndex, steps: int): AppIndex { (selected + steps) % APP_COUNT }

  class Menu {
    var selected: AppIndex

    constructor ()
      ensures selected == 0
    {
      selected := 0;
    }

    method Reset()
      modifies this
      ensures selected == 0
    {
      selected := 0;
    }

    /** Starts the highlight on the app that is running. */
    method Open(current: AppId)
      modifies this
      ensures selected == current.Index()
    {
      selected := current.Index();
    }

    method MoveBy(steps: int)
      modifies this
      ensures selected == Moved(old(selected), steps)
    {
      if steps != 0 {
        selected := (selected + steps) % APP_COUNT;
      }
    }

    /** Moves the highlight and, on a confirmation, says which app was chosen. */
    method Update(pressed: PerButton, delta: i8) returns (launch: Option<AppId>)
      modifies this
      ensures selected == Moved(old(selected), Steps(pressed, delta))
      ensures launch == if Launches(pressed) then Some(AppOf(selected)) else None
    {
      var steps: int := delta;
      if pressed.down { steps := steps + 1; }
      if pressed.up { steps := steps - 1; }
      MoveBy(steps);
      launch := if pressed.left || pressed.right then Some(AppOf(selected)) else None;
    }
  }
}

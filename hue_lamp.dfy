/**
 * The example lamp artifact: an on/off state that can be toggled and a
 * colour that can be set, both observable properties of the artifact.
 */
module HueLamp {
  const ON: string := "on"
  const OFF: string := "off"
  const DEFAULT_COLOR: string := "blue"

  /** The state after a toggle: "on" becomes "off", anything else becomes "on". */
  function Toggled(state: string): (r: string)
    ensures r == OFF <==> state == ON
    ensures r != OFF ==> r == ON
  {
    if state == ON then OFF else ON
  }

  /** Two toggles give back an "on" or "off" state. */
  lemma ToggleTwice(state: string)
    requires state == ON || state == OFF
    ensures Toggled(Toggled(state)) == state
  {
  }

  /** Any other state comes back as "off" after two toggles, not as itself. */
  lemma ToggleTwiceNormalises(state: string)
    requires state != ON && state != OFF
    ensures Toggled(Toggled(state)) == OFF != state
  {
  }

  class HueLampTD {
    /** The "state" observable property. */
    var state: string
    /** The "color" observable property. */
    var color: string

    /** init(): off and blue. */
    constructor ()
      ensures state == OFF && color == DEFAULT_COLOR
    {
      state := OFF;
      color := DEFAULT_COLOR;
    }

    /** init(state, color): exactly the given values. */
    constructor Init(state: string, color: string)
      ensures this.state == state && this.color == color
    {
      this.state := state;
      this.color := color;
    }

    /** getStatus: the current state and colour; nothing changes. */
    method GetStatus() returns (s: string, c: string)
      ensures s == state && c == color
    {
      s, c := state, color;
    }

    /** toggle: the state flips; the colour stays. */
    method Toggle()
      modifies this
      ensures state == Toggled(old(state)) && color == old(color)
    {
      if state == ON {
        state := OFF;
      } else {
        state := ON;
      }
    }

    /** setColor: the colour is replaced; the state stays. */
    method SetColor(c: string)
      modifies this
      ensures color == c && state == old(state)
    {
      color := c;
    }
  }

  /** A fresh lamp toggled twice is off again, and still blue. */
  method ToggleTwiceFromInit() returns (lamp: HueLampTD)
    ensures lamp.state == OFF && lamp.color == DEFAULT_COLOR
  {
    lamp := new HueLampTD();
    lamp.Toggle();
    lamp.Toggle();
  }
}

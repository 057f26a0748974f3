/** The subtitle's typing effect (`InteractiveElements.setupTypingEffect`): the subtitle's text
    is captured, the subtitle emptied, and a timer chain of `type()` calls appends one code unit
    per call until the whole text is shown again. The delays are left out. */
module TypingEffect {
  import opened JsText

  class Typist {
    /** The subtitle's original text, captured once. */
    const text: JsString
    /** `subtitle.textContent`. */
    var shown: JsString
    var index: nat

    /** The subtitle always shows a prefix of the text, `index` code units long. */
    ghost predicate Valid()
      reads this
    {
      index <= |text| && shown == text[..index]
    }

    constructor (subtitle: JsString)
      ensures Valid() && text == subtitle && shown == [] && index == 0
    {
      text := subtitle;
      shown := [];
      index := 0;
    }

    /** One call of `type()`. `rescheduled` says whether it sets a timer for the next call. */
    method Type() returns (rescheduled: bool)
      requires Valid()
      modifies this
      ensures Valid()
      ensures rescheduled <==> old(index) < |text|
      ensures rescheduled ==> index == old(index) + 1 && shown == old(shown) + [text[old(index)]]
      ensures !rescheduled ==> index == old(index) && shown == old(shown)
      ensures !rescheduled ==> shown == text
    {
      rescheduled := false;
      if index < |text| {
        shown := shown + [text[index]];
        index := index + 1;
        rescheduled := true;
      }
    }
  }

  /** The timer chain started on a fresh subtitle: after `steps` calls the first `steps` code
      units are shown (all of them once `steps` reaches the length), and the chain has stopped
      exactly when the whole text is shown. */
  method TypeSteps(subtitle: JsString, steps: nat) returns (shown: JsString, running: bool)
    ensures shown == subtitle[..Min(steps, |subtitle|)]
    ensures running <==> steps <= |subtitle|
  {
    var t := new Typist(subtitle);
    running := true;
    var k := 0;
    while k < steps
      invariant 0 <= k <= steps
      invariant t.Valid() && t.text == subtitle
      invariant t.index == Min(k, |subtitle|)
      invariant running <==> k <= |subtitle|
    {
      running := t.Type();
      k := k + 1;
    }
    shown := t.shown;
  }
}

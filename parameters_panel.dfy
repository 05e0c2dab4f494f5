/** The settings panel: two local inputs initialised from the current
    settings, and Save / Cancel, which report the callbacks they make. */
module Panel {
  import opened Types
  import Decimal
  import Constants

  /** One call of a callback prop of the panel. */
  datatype PanelCall =
    | UpdateHistoryLength(length: int)  // onUpdateHistoryLength
    | SetStatefulness(enabled: bool)    // onSetStatefulness
    | ClosePanel                        // onClosePanel

  const MinHistoryLength: int := 0
  const MaxHistoryLength: int := 20

  /** Save accepts the text when `parseInt(text, 10)` is a number in 0..20. */
  predicate AcceptsLength(text: string) {
    var n := Decimal.ParseInt(text);
    n.Some? && MinHistoryLength <= n.value <= MaxHistoryLength
  }

  class ParametersPanel {
    /** The history-length input, as text. */
    var lengthInput: string
    /** The statefulness checkbox. */
    var statefulnessChecked: bool

    /** The local inputs start from the props. */
    constructor (currentLength: int, isStatefulnessEnabled: bool)
      ensures lengthInput == Decimal.IntToDecimal(currentLength)
      ensures statefulnessChecked == isStatefulnessEnabled
    {
      lengthInput := Decimal.IntToDecimal(currentLength);
      statefulnessChecked := isStatefulnessEnabled;
    }

    /** The range input's `onChange`: only the text changes. */
    method OnLengthInput(text: string)
      modifies this
      ensures lengthInput == text
      ensures statefulnessChecked == old(statefulnessChecked)
    {
      lengthInput := text;
    }

    /** The checkbox's `onChange`: only the box changes. */
    method OnStatefulnessInput(checked: bool)
      modifies this
      ensures statefulnessChecked == checked
      ensures lengthInput == old(lengthInput)
    {
      statefulnessChecked := checked;
    }

    /** Save Changes: a rejected length makes no call at all (only the alert),
        so the panel stays open; an accepted one makes exactly three calls,
        in order: the parsed length, the checkbox, then close. */
    method Apply() returns (calls: seq<PanelCall>)
      ensures calls == [] <==> !AcceptsLength(lengthInput)
      ensures AcceptsLength(lengthInput) ==>
                calls == [UpdateHistoryLength(Decimal.ParseInt(lengthInput).value),
                          SetStatefulness(statefulnessChecked), ClosePanel]
    {
      var newLength := Decimal.ParseInt(lengthInput);
      calls := [];
      if newLength.Some? && MinHistoryLength <= newLength.value <= MaxHistoryLength {
        calls := calls + [UpdateHistoryLength(newLength.value)];
      } else {
        return;
      }
      calls := calls + [SetStatefulness(statefulnessChecked)];
      calls := calls + [ClosePanel];
    }

    /** Cancel: only `onClosePanel`. */
    method Cancel() returns (calls: seq<PanelCall>)
      ensures calls == [ClosePanel]
    {
      calls := [ClosePanel];
    }
  }

  /** A rendered length is accepted exactly when it lies in 0..20, and then it
      is read back unchanged: saving untouched inputs re-applies the current
      settings. */
  lemma AcceptsRenderedLength(n: int)
    ensures AcceptsLength(Decimal.IntToDecimal(n)) <==> MinHistoryLength <= n <= MaxHistoryLength
    ensures Decimal.ParseInt(Decimal.IntToDecimal(n)) == Some(n)
  {
    Decimal.ParseIntOfDecimal(n, "");
    assert Decimal.IntToDecimal(n) + "" == Decimal.IntToDecimal(n);
  }

  /** The initial depth is one the panel accepts. */
  lemma InitialLengthAccepted()
    ensures AcceptsLength(Decimal.IntToDecimal(Constants.InitialMaxHistoryLength))
  {
    AcceptsRenderedLength(Constants.InitialMaxHistoryLength);
  }

  /** Input "25" is rejected. */
  lemma RejectsTwentyFive()
    ensures !AcceptsLength("25")
  {
    Decimal.ParseIntOfNat(25, "");
    assert Decimal.NatToDecimal(25) + "" == "25";
  }

  /** Text without digits is rejected. */
  lemma RejectsWithoutDigits(text: string)
    requires forall i :: 0 <= i < |text| ==> !Decimal.IsDigit(text[i])
    ensures !AcceptsLength(text)
  {
    Decimal.ParseIntWithoutDigits(text);
  }
}

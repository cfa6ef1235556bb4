/** The add-repository form of internal/ui/components/modal.go: three text
    inputs (owner, repo, notes) with one of them focused. The widget's own
    keystroke editing (textinput.Update) is not modelled; it is the parameter
    `edit` of Update. */
module Modal {
  import opened Text
  import opened Tea

  const FieldOwner := 0
  const FieldRepo := 1
  const FieldNotes := 2
  const FieldCount := 3
  const InputCharLimit := 100

  const Placeholders: seq<string> := ["e.g. your-org", "e.g. your-app", "e.g. Production API"]

  /** The command the form's Update returns: nothing of its own, a submit, or a cancel. */
  datatype ModalCmd = Idle | Submit(result: AddRepoResult) | Cancel

  /** The inputs after moving the focus flag from input `from` to input `to`
      (Blur, then Focus). */
  function Refocus(ins: seq<TextInput>, from: int, to: int): (r: seq<TextInput>)
    requires 0 <= from < |ins| && 0 <= to < |ins|
    ensures |r| == |ins|
    ensures r[to] == ins[to].(focused := true)
    ensures from != to ==> r[from] == ins[from].(focused := false)
    ensures forall i :: 0 <= i < |ins| && i != from && i != to ==> r[i] == ins[i]
  {
    var blurred := ins[from := Blur(ins[from])];
    blurred[to := Focus(blurred[to])]
  }

  /** Every input run through the widget's own update. */
  function EditAll(ins: seq<TextInput>, msg: Msg, edit: (TextInput, Msg) -> TextInput): (r: seq<TextInput>)
    ensures |r| == |ins|
    ensures forall i :: 0 <= i < |ins| ==> r[i] == edit(ins[i], msg)
  {
    seq(|ins|, i requires 0 <= i < |ins| => edit(ins[i], msg))
  }

  /** The key that a message carries, or "" for any other message. */
  function KeyOf(msg: Msg): string
  {
    if msg.KeyMsg? then msg.key else ""
  }

  class AddRepoModal {
    var inputs: array<TextInput>
    var focused: int
    var width: int
    var height: int

    ghost predicate Valid()
      reads this
    {
      inputs.Length == FieldCount && 0 <= focused < FieldCount
    }

    /** Exactly the focused input carries the focus flag. */
    ghost predicate FocusConsistent()
      reads this, inputs
    {
      forall i :: 0 <= i < inputs.Length ==> inputs[i].focused == (i == focused)
    }

    /** The zero value AddRepoModal{}: no inputs at all. */
    constructor Zero()
      ensures inputs.Length == 0 && focused == 0 && width == 0 && height == 0
      ensures fresh(inputs)
    {
      inputs := new TextInput[0];
      focused := 0;
      width := 0;
      height := 0;
    }

    /** NewAddRepoModal: three empty inputs limited to 100 characters, the
        owner field focused. */
    constructor (width: int, height: int)
      ensures Valid() && FocusConsistent() && fresh(inputs)
      ensures focused == FieldOwner
      ensures this.width == width && this.height == height
      ensures forall i :: 0 <= i < FieldCount ==>
        && inputs[i].value == "" && inputs[i].charLimit == InputCharLimit
        && inputs[i].placeholder == Placeholders[i] && inputs[i].prompt == "  "
    {
      var a := new TextInput[FieldCount];
      for i := 0 to FieldCount
        invariant forall j :: 0 <= j < i ==>
          a[j] == TextInput("", Placeholders[j], "  ", InputCharLimit, j == 0)
      {
        var t := TextInput("", Placeholders[i], "  ", InputCharLimit, false);
        if i == 0 {
          t := Focus(t);
        }
        a[i] := t;
      }
      inputs := a;
      focused := 0;
      this.width := width;
      this.height := height;
    }

    /** Blur the focused input, focus input `to`. */
    method MoveFocus(to: int)
      requires Valid() && 0 <= to < FieldCount
      modifies this`focused, inputs
      ensures Valid() && focused == to
      ensures inputs[..] == Refocus(old(inputs[..]), old(focused), to)
      ensures old(FocusConsistent()) ==> FocusConsistent()
    {
      inputs[focused] := Blur(inputs[focused]);
      focused := to;
      inputs[focused] := Focus(inputs[focused]);
    }

    /** The trailing loop of Update: every input sees the message. */
    method EditInputs(msg: Msg, edit: (TextInput, Msg) -> TextInput)
      modifies inputs
      ensures inputs[..] == EditAll(old(inputs[..]), msg, edit)
    {
      for i := 0 to inputs.Length
        invariant forall j :: 0 <= j < i ==> inputs[j] == edit(old(inputs[j]), msg)
        invariant forall j :: i <= j < inputs.Length ==> inputs[j] == old(inputs[j])
      {
        inputs[i] := edit(inputs[i], msg);
      }
    }

    /** AddRepoModal.Update. "esc" cancels; "tab"/"down" and "shift+tab"/"up"
        cycle the focus; "enter" submits the trimmed fields when owner and repo
        are non-empty and otherwise focuses the first empty one. Unless it
        returned early, every input then sees the message. */
    method Update(msg: Msg, edit: (TextInput, Msg) -> TextInput) returns (cmd: ModalCmd)
      requires Valid()
      modifies this`focused, inputs
      ensures Valid()
      ensures var key := KeyOf(msg);
        var owner := TrimSpace(old(inputs[FieldOwner].value));
        var repo := TrimSpace(old(inputs[FieldRepo].value));
        var notes := TrimSpace(old(inputs[FieldNotes].value));
        var moved := Refocus(old(inputs[..]), old(focused), focused);
        && (key == "esc" ==>
              cmd == Cancel && focused == old(focused) && inputs[..] == old(inputs[..]))
        && (key == "enter" && owner != "" && repo != "" ==>
              cmd == Submit(AddRepoResult(owner, repo, notes))
              && focused == old(focused) && inputs[..] == old(inputs[..]))
        && ((key == "tab" || key == "down") ==>
              cmd == Idle && focused == (old(focused) + 1) % FieldCount
              && inputs[..] == EditAll(moved, msg, edit))
        && ((key == "shift+tab" || key == "up") ==>
              cmd == Idle && focused == (old(focused) + 2) % FieldCount
              && inputs[..] == EditAll(moved, msg, edit))
        && (key == "enter" && owner == "" ==>
              cmd == Idle && focused == FieldOwner && inputs[..] == EditAll(moved, msg, edit))
        && (key == "enter" && owner != "" && repo == "" ==>
              cmd == Idle && focused == FieldRepo && inputs[..] == EditAll(moved, msg, edit))
        && (key !in {"esc", "enter", "tab", "down", "shift+tab", "up"} ==>
              cmd == Idle && focused == old(focused)
              && inputs[..] == EditAll(old(inputs[..]), msg, edit))
      ensures cmd.Submit? ==> cmd.result.owner != "" && cmd.result.repo != ""
    {
      var key := KeyOf(msg);
      if key == "esc" {
        return Cancel;
      } else if key == "tab" || key == "down" {
        MoveFocus((focused + 1) % inputs.Length);
      } else if key == "shift+tab" || key == "up" {
        MoveFocus((focused - 1 + inputs.Length) % inputs.Length);
      } else if key == "enter" {
        var owner := TrimSpace(inputs[FieldOwner].value);
        var repo := TrimSpace(inputs[FieldRepo].value);
        var notes := TrimSpace(inputs[FieldNotes].value);
        if owner != "" && repo != "" {
          return Submit(AddRepoResult(owner, repo, notes));
        }
        if owner == "" {
          MoveFocus(FieldOwner);
        } else if repo == "" {
          MoveFocus(FieldRepo);
        }
      }
      EditInputs(msg, edit);
      cmd := Idle;
    }
  }
}

/** The task-editing screen: a store of four tasks seeded at start-up, a form
    with an ID field and a new-name field, and the "Modificar Nombre" action
    that renames the task with the given ID and reports the outcome on the
    feedback line. */
module MainActivity {
  import opened KotlinText

  // ---------------------------------------------------------------------------
  // Tasks and the seed list
  // ---------------------------------------------------------------------------

  /** A `Tarea`: its fixed id, the name it was created with (`nombreInicial`)
      and its current name (`nombre`), the one field the screen edits. */
  datatype Task = Task(id: Int32, initialName: string, name: string)

  /** The list holds four tasks with ids 101, 102, 103, 104, in that order. */
  predicate HasSeedIds(tasks: seq<Task>) {
    |tasks| == 4 && forall j :: 0 <= j < |tasks| ==> tasks[j].id == 101 + j
  }

  /** The list the screen starts with; each task's current name is the name it
      was created with. */
  function Seed(): (r: seq<Task>)
    ensures HasSeedIds(r)
    ensures forall j :: 0 <= j < |r| ==> r[j].name == r[j].initialName
  {
    [ Task(101, "Estudiar IDNP", "Estudiar IDNP"),
      Task(102, "Investigar Compose", "Investigar Compose"),
      Task(103, "Diseñar Mockup", "Diseñar Mockup"),
      Task(104, "Revisar Apuntes", "Revisar Apuntes") ]
  }

  /** No two seeded tasks share an id. */
  lemma SeedIdsDistinct()
    ensures forall i, j :: 0 <= i < j < |Seed()| ==> Seed()[i].id != Seed()[j].id
  {
    assert HasSeedIds(Seed());
  }

  /** Every name in the list is either the one the task was created with or
      one the form wrote: non-empty, with no whitespace at either end. */
  predicate NamesWellFormed(tasks: seq<Task>) {
    forall j :: 0 <= j < |tasks| ==>
      tasks[j].name == tasks[j].initialName || IsTrimmedName(tasks[j].name)
  }

  // ---------------------------------------------------------------------------
  // Lookup
  // ---------------------------------------------------------------------------

  /** The position of the first task with the given id, if any. */
  function IndexOfId(tasks: seq<Task>, id: int): (r: Option<nat>)
    ensures r.Some? ==> r.value < |tasks| && tasks[r.value].id == id
    ensures r.Some? ==> forall j :: 0 <= j < r.value ==> tasks[j].id != id
    ensures r.None? ==> forall j :: 0 <= j < |tasks| ==> tasks[j].id != id
  {
    if tasks == [] then None
    else if tasks[0].id == id then Some(0)
    else match IndexOfId(tasks[1..], id)
      case Some(k) => Some(k + 1)
      case None => None
  }

  /** `listaTareas.find { it.id == id }`: a linear scan from the front. */
  method Find(tasks: seq<Task>, id: int) returns (found: Option<nat>)
    ensures found == IndexOfId(tasks, id)
  {
    var i := 0;
    while i < |tasks|
      invariant 0 <= i <= |tasks|
      invariant forall j :: 0 <= j < i ==> tasks[j].id != id
    {
      if tasks[i].id == id {
        return Some(i);
      }
      i := i + 1;
    }
    return None;
  }

  // ---------------------------------------------------------------------------
  // Feedback messages and their colour
  // ---------------------------------------------------------------------------

  const Prompt: string := "Ingrese ID y nuevo nombre."
  const RejectMessage: string := "Error: Complete ID y Nuevo Nombre."

  function SuccessMessage(id: Int32, name: string): string {
    "Tarea #" + IntToDecimal(id) + " modificada a '" + name + "'."
  }

  function NotFoundMessage(id: Int32): string {
    "Error: ID " + IntToDecimal(id) + " no encontrado."
  }

  /** The feedback line is drawn in the error colour (red rather than green)
      exactly when the message starts with "Error". */
  predicate ShownAsError(message: string) {
    "Error" <= message
  }

  /** The start-up prompt is not shown as an error. */
  lemma PromptNotError()
    ensures !ShownAsError(Prompt)
  {
    assert Prompt[0] == 'I';
  }

  // ---------------------------------------------------------------------------
  // The "Modificar Nombre" action, as a function of the form and the list
  // ---------------------------------------------------------------------------

  /** The three ways a press of the button can end. `Applied` carries the
      position of the task it renames. */
  datatype Outcome =
    | Applied(at: nat, id: Int32, name: string)
    | NotFound(id: Int32)
    | Rejected

  /** Which outcome a press has, given the list and the two form fields. */
  function Classify(tasks: seq<Task>, idText: string, nameText: string): (o: Outcome)
    ensures o.Rejected? <==> ParseInt(idText).None? || Trim(nameText) == []
    ensures o.Applied? ==>
              ParseInt(idText) == Some(o.id) && o.name == Trim(nameText)
              && o.at < |tasks| && tasks[o.at].id == o.id
              && forall j :: 0 <= j < o.at ==> tasks[j].id != o.id
    ensures o.NotFound? ==>
              ParseInt(idText) == Some(o.id) && Trim(nameText) != []
              && forall j :: 0 <= j < |tasks| ==> tasks[j].id != o.id
  {
    var name := Trim(nameText);
    match ParseInt(idText)
    case None => Rejected
    case Some(id) =>
      if name == [] then Rejected
      else match IndexOfId(tasks, id)
        case Some(k) => Applied(k, id, name)
        case None => NotFound(id)
  }

  /** The list after the outcome: only an `Applied` outcome changes it, and
      then only the name of the task it points at. */
  function Apply(tasks: seq<Task>, o: Outcome): (r: seq<Task>)
    requires o.Applied? ==> o.at < |tasks|
    ensures |r| == |tasks|
    ensures forall j :: 0 <= j < |tasks| ==> r[j].id == tasks[j].id
    ensures forall j :: 0 <= j < |tasks| ==> r[j].initialName == tasks[j].initialName
    ensures forall j :: 0 <= j < |tasks| && !(o.Applied? && j == o.at) ==> r[j] == tasks[j]
    ensures o.Applied? ==> r[o.at].name == o.name
  {
    if o.Applied? then tasks[o.at := tasks[o.at].(name := o.name)] else tasks
  }

  /** The message the feedback line shows after the outcome. It is shown as an
      error exactly when the press did not rename a task. */
  function Feedback(o: Outcome): (m: string)
    ensures ShownAsError(m) <==> !o.Applied?
  {
    match o
    case Applied(_, id, name) =>
      var m := SuccessMessage(id, name);
      assert m[0] == 'T';
      m
    case NotFound(id) => NotFoundMessage(id)
    case Rejected => RejectMessage
  }

  /** Two presses with the same form contents in a row: the second finds the
      list exactly as the first left it, and reports the same message. */
  lemma PressIdempotent(tasks: seq<Task>, idText: string, nameText: string)
    ensures var o := Classify(tasks, idText, nameText);
            var after := Apply(tasks, o);
            var o2 := Classify(after, idText, nameText);
            o2 == o && Apply(after, o2) == after
  {
    var o := Classify(tasks, idText, nameText);
    var after := Apply(tasks, o);
    var o2 := Classify(after, idText, nameText);
    if o.Applied? {
      assert o2.Applied?;
      assert o2.at == o.at;
    }
  }

  /** A press keeps the seeded ids in place and never writes a name that is
      empty or has whitespace at either end. */
  lemma PressKeepsValid(tasks: seq<Task>, idText: string, nameText: string)
    requires HasSeedIds(tasks) && NamesWellFormed(tasks)
    ensures var after := Apply(tasks, Classify(tasks, idText, nameText));
            HasSeedIds(after) && NamesWellFormed(after)
  {
    var o := Classify(tasks, idText, nameText);
    if o.Applied? {
      assert IsTrimmedName(o.name);
    }
  }

  /** In `d + rest`, where `d` holds no space and `rest` starts with one, the
      first space is at position `|d|`. */
  lemma FirstSpace(d: string, rest: string)
    requires forall k :: 0 <= k < |d| ==> d[k] != ' '
    requires rest != [] && rest[0] == ' '
    ensures (d + rest)[|d|] == ' '
    ensures forall k :: 0 <= k < |d| ==> (d + rest)[k] != ' '
  {
  }

  /** Two decimal numbers followed by texts that start with a space can only be
      equal if the numbers and the texts are. */
  lemma SplitAtSpace(d1: string, a: string, d2: string, b: string)
    requires forall k :: 0 <= k < |d1| ==> d1[k] != ' '
    requires forall k :: 0 <= k < |d2| ==> d2[k] != ' '
    requires a != [] && a[0] == ' ' && b != [] && b[0] == ' '
    requires d1 + a == d2 + b
    ensures d1 == d2 && a == b
  {
    FirstSpace(d1, a);
    FirstSpace(d2, b);
    assert |d1| == |d2|;
    assert d1 == (d1 + a)[..|d1|] && d2 == (d2 + b)[..|d2|];
    assert a == (d1 + a)[|d1|..] && b == (d2 + b)[|d2|..];
  }

  /** A common prefix can be cancelled. */
  lemma CancelPrefix(p: string, x: string, y: string)
    requires p + x == p + y
    ensures x == y
  {
    assert x == (p + x)[|p|..];
    assert y == (p + y)[|p|..];
  }

  /** A common suffix can be cancelled. */
  lemma CancelSuffix(x: string, y: string, q: string)
    requires x + q == y + q
    ensures x == y
  {
    assert x == (x + q)[..|x|];
    assert y == (y + q)[..|y|];
  }

  /** "Tarea #" + number + " modificada a '" + name + "'." splits back into
      its number and its name. */
  lemma SplitSuccessText(d1: string, n1: string, d2: string, n2: string)
    requires forall k :: 0 <= k < |d1| ==> d1[k] != ' '
    requires forall k :: 0 <= k < |d2| ==> d2[k] != ' '
    requires "Tarea #" + d1 + " modificada a '" + n1 + "'."
             == "Tarea #" + d2 + " modificada a '" + n2 + "'."
    ensures d1 == d2 && n1 == n2
  {
    var mid := " modificada a '";
    assert "Tarea #" + d1 + mid + n1 + "'." == "Tarea #" + (d1 + (mid + n1)) + "'.";
    assert "Tarea #" + d2 + mid + n2 + "'." == "Tarea #" + (d2 + (mid + n2)) + "'.";
    CancelSuffix("Tarea #" + (d1 + (mid + n1)), "Tarea #" + (d2 + (mid + n2)), "'.");
    CancelPrefix("Tarea #", d1 + (mid + n1), d2 + (mid + n2));
    SplitAtSpace(d1, mid + n1, d2, mid + n2);
    CancelPrefix(mid, n1, n2);
  }

  /** The success message determines the id and the name it reports. */
  lemma SuccessMessageInjective(id1: Int32, n1: string, id2: Int32, n2: string)
    requires SuccessMessage(id1, n1) == SuccessMessage(id2, n2)
    ensures id1 == id2 && n1 == n2
  {
    SplitSuccessText(IntToDecimal(id1), n1, IntToDecimal(id2), n2);
    IntToDecimalInjective(id1, id2);
  }

  /** The not-found message determines the id it reports. */
  lemma NotFoundMessageInjective(id1: Int32, id2: Int32)
    requires NotFoundMessage(id1) == NotFoundMessage(id2)
    ensures id1 == id2
  {
    var d1, d2 := IntToDecimal(id1), IntToDecimal(id2);
    var tail := " no encontrado.";
    assert NotFoundMessage(id1) == "Error: ID " + (d1 + tail);
    assert NotFoundMessage(id2) == "Error: ID " + (d2 + tail);
    CancelPrefix("Error: ID ", d1 + tail, d2 + tail);
    SplitAtSpace(d1, tail, d2, tail);
    IntToDecimalInjective(id1, id2);
  }

  /** The two error messages part at their eighth character. */
  lemma FeedbackMarks(o: Outcome)
    ensures |Feedback(o)| > 7
    ensures o.NotFound? ==> Feedback(o)[7] == 'I'
    ensures o.Rejected? ==> Feedback(o)[7] == 'C'
  {
    if o.Applied? {
      assert Feedback(o) == "Tarea #" + IntToDecimal(o.id) + " modificada a '" + o.name + "'.";
    }
  }

  /** The feedback line tells the outcomes apart: equal messages come from the
      same kind of outcome, with the same id and, for a rename, the same name. */
  lemma FeedbackIdentifiesOutcome(o1: Outcome, o2: Outcome)
    requires Feedback(o1) == Feedback(o2)
    ensures o1.Applied? <==> o2.Applied?
    ensures o1.NotFound? <==> o2.NotFound?
    ensures !o1.Rejected? ==> o1.id == o2.id
    ensures o1.Applied? ==> o1.name == o2.name
  {
    FeedbackMarks(o1);
    FeedbackMarks(o2);
    if o1.Applied? && o2.Applied? {
      SuccessMessageInjective(o1.id, o1.name, o2.id, o2.name);
    } else if o1.NotFound? && o2.NotFound? {
      NotFoundMessageInjective(o1.id, o2.id);
    }
  }

  // ---------------------------------------------------------------------------
  // Worked presses on the seeded list
  // ---------------------------------------------------------------------------

  /** The ID text "102" reads as 102. */
  lemma ParseId102()
    ensures ParseInt("102") == Some(102)
  {
    assert NatToDecimal(102) == "102" by {
      assert NatToDecimal(10) == NatToDecimal(1) + ['0'];
    }
    ParseNatDecimal(102);
  }

  /** An ID field that reads as 102 with a trimmed name (such as "Compose
      Avanzado") renames the second seeded task to exactly that name. */
  lemma RenameScenario(idText: string, name: string)
    requires ParseInt(idText) == Some(102) && IsTrimmedName(name)
    ensures Classify(Seed(), idText, name) == Applied(1, 102, name)
  {
    TrimIdempotent(name);
    assert IndexOfId(Seed(), 102) == Some(1) by {
      assert Seed()[0].id == 101;
    }
  }

  /** Applying that rename gives task 102 the new name and leaves the other
      three tasks as they were. */
  lemma RenameScenarioApply(name: string)
    ensures var after := Apply(Seed(), Applied(1, 102, name));
            after[1].name == name
            && forall j :: 0 <= j < |Seed()| && j != 1 ==> after[j] == Seed()[j]
  {
  }

  /** The message for that rename. */
  lemma RenameScenarioFeedback()
    ensures IntToDecimal(102) == "102"
    ensures Feedback(Applied(1, 102, "Compose Avanzado"))
            == "Tarea #" + "102" + " modificada a '" + "Compose Avanzado" + "'."
  {
    assert NatToDecimal(10) == NatToDecimal(1) + ['0'];
  }

  /** The ID text "999" reads as 999. */
  lemma ParseId999()
    ensures ParseInt("999") == Some(999)
  {
    assert NatToDecimal(999) == "999" by {
      assert NatToDecimal(99) == NatToDecimal(9) + ['9'];
    }
    ParseNatDecimal(999);
  }

  /** An ID outside 101..104 (such as "999") with a usable name is "not found",
      and the press changes nothing. */
  lemma NotFoundScenario(idText: string, nameText: string, id: Int32)
    requires ParseInt(idText) == Some(id) && !(101 <= id <= 104) && Trim(nameText) != []
    ensures Classify(Seed(), idText, nameText) == NotFound(id)
    ensures Apply(Seed(), NotFound(id)) == Seed()
  {
    assert HasSeedIds(Seed());
  }

  /** The message for that press reports the missing id. */
  lemma NotFoundScenarioFeedback()
    ensures IntToDecimal(999) == "999"
    ensures Feedback(NotFound(999)) == "Error: ID " + "999" + " no encontrado."
  {
    assert NatToDecimal(99) == NatToDecimal(9) + ['9'];
  }

  /** An empty ID field is refused whatever the name. */
  lemma EmptyIdScenario(nameText: string)
    ensures var o := Classify(Seed(), "", nameText);
            o == Rejected && Apply(Seed(), o) == Seed() && Feedback(o) == RejectMessage
  {
  }

  // ---------------------------------------------------------------------------
  // The screen's state
  // ---------------------------------------------------------------------------

  /** The state `PruebaModificacionLazy` remembers: the task list and the
      three form fields. */
  class Screen {
    var tasks: seq<Task>
    var idText: string
    var newNameText: string
    var feedback: string

    /** The list keeps the seeded ids in the seeded order and its names stay
        well formed. */
    ghost predicate Valid()
      reads this
    {
      HasSeedIds(tasks) && NamesWellFormed(tasks)
    }

    /** First composition: the seeded list, after the pass that assigns each
        task's name to itself, and an empty form showing the prompt. */
    constructor ()
      ensures Valid()
      ensures tasks == Seed() && idText == "" && newNameText == "" && feedback == Prompt
    {
      var seeded := Seed();
      for k := 0 to |seeded|
        invariant seeded == Seed()
      {
        seeded := seeded[k := seeded[k].(name := seeded[k].name)];
      }
      tasks := seeded;
      idText := "";
      newNameText := "";
      feedback := Prompt;
    }

    /** Typing into the ID field: only the digits of what was typed are kept,
        so the field never holds anything but digits (the constructor and
        `ModifyName` leave it empty, `EditNewName` leaves it alone). */
    method EditId(typed: string)
      requires Valid()
      modifies this
      ensures Valid()
      ensures idText == FilterDigits(typed) && AllDigits(idText)
      ensures tasks == old(tasks) && newNameText == old(newNameText) && feedback == old(feedback)
    {
      idText := FilterDigits(typed);
    }

    /** Typing into the new-name field: the text is kept as typed. */
    method EditNewName(typed: string)
      requires Valid()
      modifies this
      ensures Valid()
      ensures newNameText == typed
      ensures tasks == old(tasks) && idText == old(idText) && feedback == old(feedback)
    {
      newNameText := typed;
    }

    /** The "Modificar Nombre" button: renames the task whose id was entered
        when the id parses and the trimmed name is non-empty, reports the
        outcome, and always clears both fields. */
    method ModifyName()
      requires Valid()
      modifies this
      ensures Valid()
      ensures var o := Classify(old(tasks), old(idText), old(newNameText));
              tasks == Apply(old(tasks), o) && feedback == Feedback(o)
      ensures idText == "" && newNameText == ""
    {
      PressKeepsValid(tasks, idText, newNameText);
      var id := ParseInt(idText);
      var newName := Trim(newNameText);
      if id.Some? && newName != [] {
        var found := Find(tasks, id.value);
        if found.Some? {
          tasks := tasks[found.value := tasks[found.value].(name := newName)];
          feedback := SuccessMessage(id.value, newName);
        } else {
          feedback := NotFoundMessage(id.value);
        }
      } else {
        feedback := RejectMessage;
      }
      idText := "";
      newNameText := "";
    }
  }

  /** A session on a fresh screen: type "1x02" into the ID field and a name
      with no whitespace at its ends (such as "Compose Avanzado") into the name
      field, then press the button. */
  method RenameSession(name: string)
    requires IsTrimmedName(name)
  {
    var screen := new Screen();
    screen.EditId("1x02");
    assert screen.idText == "102";
    screen.EditNewName(name);
    ParseId102();
    RenameScenario("102", name);
    screen.ModifyName();
    RenameScenarioApply(name);
    assert screen.tasks[1].name == name;
    assert screen.tasks[0] == Seed()[0];
    assert screen.feedback == SuccessMessage(102, name);
    assert screen.idText == "" && screen.newNameText == "";
  }
}

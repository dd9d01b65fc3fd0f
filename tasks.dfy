/** The task record the table lists (the `Post` interface of the task table)
    and the projection of a record onto the field the table sorts by. */
module Tasks {

  import opened Wrappers
  import Json

  datatype Assignee = Assignee(id: string, name: string, email: string)

  /** One task as the task API returns it; `id` is the record's `_id`. */
  datatype Task = Task(
    id: string,
    title: string,
    description: string,
    status: string,
    dueDate: string,
    priority: string,
    assignee: Assignee)

  /** The keys of a task record. The sort menu offers only Title, Priority and
      DueDate; the comparator itself works on any key. */
  datatype Field = Id | Title | Description | Status | DueDate | Priority | AssigneeField

  /** `JSON.stringify(task.assignee)`, keys in the record's declaration order. */
  function AssigneeJson(a: Assignee): string
  {
    "{\"_id\":" + (Json.Quote(a.id) + (",\"name\":" + (Json.Quote(a.name)
      + (",\"email\":" + (Json.Quote(a.email) + "}")))))
  }

  /** Strips the literal `p` from the front of `s`. */
  function Expect(p: string, s: string): Option<string>
  {
    if p <= s then Some(s[|p|..]) else None
  }

  lemma ExpectPrefix(p: string, rest: string)
    ensures Expect(p, p + rest) == Some(rest)
  {
    assert (p + rest)[|p|..] == rest;
  }

  /** Reads back an assignee written by AssigneeJson. */
  function ParseAssigneeJson(s: string): Option<Assignee>
  {
    match Expect("{\"_id\":", s)
    case None => None
    case Some(s1) =>
      match Json.ReadQuoted(s1)
      case None => None
      case Some((id, s2)) =>
        match Expect(",\"name\":", s2)
        case None => None
        case Some(s3) =>
          match Json.ReadQuoted(s3)
          case None => None
          case Some((name, s4)) =>
            match Expect(",\"email\":", s4)
            case None => None
            case Some(s5) =>
              match Json.ReadQuoted(s5)
              case None => None
              case Some((email, s6)) =>
                if s6 == "}" then Some(Assignee(id, name, email)) else None
  }

  /** The serialised assignee determines the assignee. */
  lemma AssigneeJsonRoundTrip(a: Assignee)
    ensures ParseAssigneeJson(AssigneeJson(a)) == Some(a)
  {
    var tail2 := ",\"email\":" + (Json.Quote(a.email) + "}");
    var tail1 := ",\"name\":" + (Json.Quote(a.name) + tail2);
    ExpectPrefix("{\"_id\":", Json.Quote(a.id) + tail1);
    Json.ReadQuotedRoundTrip(a.id, tail1);
    ExpectPrefix(",\"name\":", Json.Quote(a.name) + tail2);
    Json.ReadQuotedRoundTrip(a.name, tail2);
    ExpectPrefix(",\"email\":", Json.Quote(a.email) + "}");
    Json.ReadQuotedRoundTrip(a.email, "}");
  }

  lemma AssigneeJsonInjective(a: Assignee, b: Assignee)
    requires AssigneeJson(a) == AssigneeJson(b)
    ensures a == b
  {
    AssigneeJsonRoundTrip(a);
    AssigneeJsonRoundTrip(b);
  }

  /** The value the comparator compares: an object-valued field (the assignee)
      is replaced by its JSON text, a string field is used as it is. */
  function Key(f: Field, t: Task): string
  {
    match f
    case Id => t.id
    case Title => t.title
    case Description => t.description
    case Status => t.status
    case DueDate => t.dueDate
    case Priority => t.priority
    case AssigneeField => AssigneeJson(t.assignee)
  }

  /** Two tasks tie on a key exactly when they agree on that field: the JSON
      text of the assignee loses nothing. */
  lemma KeyTiesExactly(f: Field, a: Task, b: Task)
    ensures Key(f, a) == Key(f, b) <==>
      match f
      case Id => a.id == b.id
      case Title => a.title == b.title
      case Description => a.description == b.description
      case Status => a.status == b.status
      case DueDate => a.dueDate == b.dueDate
      case Priority => a.priority == b.priority
      case AssigneeField => a.assignee == b.assignee
  {
    if f == AssigneeField && Key(f, a) == Key(f, b) {
      AssigneeJsonInjective(a.assignee, b.assignee);
    }
  }
}

/** The edit-task form (UpdatePost.tsx): the form built from a task, the
    field-by-field edits, and the submit that calls back only after the PUT. */
module UpdatePost {

  import opened Wrappers
  import opened Text
  import Tasks

  /** The task the form is opened on; the date and the assignee may be
      missing (the source reads them with `?.`). */
  datatype EditedPost = EditedPost(
    id: string,
    title: string,
    description: string,
    status: string,
    dueDate: Option<string>,
    priority: string,
    assignee: Option<Tasks.Assignee>)

  /** `formData`: the task with the date cut to its day and the assignee
      replaced by its id. */
  datatype Form = Form(
    id: string,
    title: string,
    description: string,
    status: string,
    dueDate: string,
    priority: string,
    assignee: string)

  /** The task table opens the form on one of its rows. */
  function FromTask(t: Tasks.Task): (p: EditedPost)
    ensures p.id == t.id && p.title == t.title && p.description == t.description
    ensures p.status == t.status && p.priority == t.priority
    ensures p.dueDate == Some(t.dueDate) && p.assignee == Some(t.assignee)
  {
    EditedPost(t.id, t.title, t.description, t.status, Some(t.dueDate), t.priority, Some(t.assignee))
  }

  /** The initial `formData`: every field of the task, except that the date is
      what precedes its first 'T' ("" when there is no date) and the assignee
      is its `_id` ("" when there is none). */
  function InitialForm(p: EditedPost): (f: Form)
    ensures f.id == p.id && f.title == p.title && f.description == p.description
    ensures f.status == p.status && f.priority == p.priority
    ensures 'T' !in f.dueDate
    ensures p.dueDate.None? ==> f.dueDate == ""
    ensures p.dueDate.Some? ==> f.dueDate <= p.dueDate.value
    ensures p.dueDate.Some? && |f.dueDate| < |p.dueDate.value| ==> p.dueDate.value[|f.dueDate|] == 'T'
    ensures f.assignee == if p.assignee.Some? then p.assignee.value.id else ""
  {
    Form(
      p.id, p.title, p.description, p.status,
      match p.dueDate case None => "" case Some(d) => BeforeFirst(d, 'T'),
      p.priority,
      match p.assignee case None => "" case Some(a) => a.id)
  }

  /** Opened on a row of the task table, the form shows the row's fields, the
      part of its date before the first 'T' and its assignee's id. */
  lemma InitialFormOfTask(t: Tasks.Task)
    ensures var f := InitialForm(FromTask(t));
      f.id == t.id && f.title == t.title && f.description == t.description
      && f.status == t.status && f.priority == t.priority
      && f.dueDate == BeforeFirst(t.dueDate, 'T') && 'T' !in f.dueDate
      && f.assignee == t.assignee.id
  {
  }

  /** A stored timestamp "<day>T<time>" opens the form on its day. */
  lemma InitialFormOfTimestamp(p: EditedPost, day: string, time: string)
    requires 'T' !in day && p.dueDate == Some(day + "T" + time)
    ensures InitialForm(p).dueDate == day
  {
    BeforeFirstAt(day, time);
  }

  /** A date without a time is kept whole. */
  lemma InitialFormOfDay(p: EditedPost, day: string)
    requires 'T' !in day && p.dueDate == Some(day)
    ensures InitialForm(p).dueDate == day
  {
    BeforeFirstWithout(day, 'T');
  }

  /** The `name` attributes of the inputs that use `handleChange`. */
  datatype Input = TitleInput | DescriptionInput | StatusInput | DueDateInput | PriorityInput

  function Get(f: Form, name: Input): string
  {
    match name
    case TitleInput => f.title
    case DescriptionInput => f.description
    case StatusInput => f.status
    case DueDateInput => f.dueDate
    case PriorityInput => f.priority
  }

  /** `{...formData, [name]: value}`: the named field takes the value and every
      other field, id and assignee included, keeps its value. */
  function SetField(f: Form, name: Input, value: string): (r: Form)
    ensures Get(r, name) == value
    ensures forall other :: other != name ==> Get(r, other) == Get(f, other)
    ensures r.id == f.id && r.assignee == f.assignee
  {
    match name
    case TitleInput => f.(title := value)
    case DescriptionInput => f.(description := value)
    case StatusInput => f.(status := value)
    case DueDateInput => f.(dueDate := value)
    case PriorityInput => f.(priority := value)
  }

  /** Two edits of one field: the second wins. */
  lemma SetFieldTwice(f: Form, name: Input, a: string, b: string)
    ensures SetField(SetField(f, name, a), name, b) == SetField(f, name, b)
  {
  }

  /** Edits of two different fields do not interfere. */
  lemma SetFieldCommutes(f: Form, n1: Input, v1: string, n2: Input, v2: string)
    requires n1 != n2
    ensures SetField(SetField(f, n1, v1), n2, v2) == SetField(SetField(f, n2, v2), n1, v1)
  {
  }

  /** Writing back a field's own value changes nothing. */
  lemma SetFieldSame(f: Form, name: Input)
    ensures SetField(f, name, Get(f, name)) == f
  {
  }

  /** The PUT: the path names the task the form was opened on and the body is
      the whole form, assignee id included. */
  datatype PutRequest = PutRequest(pathId: string, body: Form)

  /** The browser's check of the `required` inputs: title and description
      must not be empty for the form to be submitted. */
  predicate Submittable(f: Form)
  {
    f.title != "" && f.description != ""
  }

  /** The parent's callbacks, in the order they are called. */
  datatype Callback = OnUpdate | OnClose

  class UpdatePostForm {
    const post: EditedPost
    var formData: Form

    ghost predicate Valid()
      reads this
    {
      formData.id == post.id
    }

    constructor (p: EditedPost)
      ensures post == p && formData == InitialForm(p) && Valid()
    {
      post := p;
      formData := InitialForm(p);
    }

    /** `handleChange` */
    method HandleChange(name: Input, value: string)
      requires Valid()
      modifies this`formData
      ensures formData == SetField(old(formData), name, value) && Valid()
    {
      formData := SetField(formData, name, value);
    }

    /** The assignee input's own handler: only the assignee changes. */
    method ChangeAssignee(value: string)
      requires Valid()
      modifies this`formData
      ensures formData == old(formData).(assignee := value) && Valid()
    {
      formData := formData.(assignee := value);
    }

    /** A submit of the form, given whether the PUT succeeded. The title and
        description inputs are `required`, so the browser does not submit the
        form while either is empty: no request, no callback. Otherwise
        `handleSubmit` sends the whole form to the task's own path; `onUpdate`
        then `onClose` run only after a success, and after a failure the form
        stays open with its contents. */
    method HandleSubmit(succeeded: bool) returns (request: Option<PutRequest>, calls: seq<Callback>)
      requires Valid()
      ensures request.None? <==> !Submittable(formData)
      ensures request.Some? ==> request.value.pathId == post.id && request.value.body == formData
      ensures request.Some? ==> request.value.body.id == request.value.pathId
      ensures request.Some? && succeeded ==> calls == [OnUpdate, OnClose]
      ensures request.None? || !succeeded ==> calls == []
    {
      request, calls := None, [];
      if Submittable(formData) {
        request := Some(PutRequest(post.id, formData));
        if succeeded {
          calls := calls + [OnUpdate];
          calls := calls + [OnClose];
        }
      }
    }
  }
}

/** The task record the handler fills: a root of attributes keyed by identifier, each holding
    no value yet, a text value, or (for comment attributes) a comment entry.  Attribute
    metadata (type, kind, display label, read-only flag) is not modelled. */
module TaskModel {

  /** The fields of the connector's attribute schema. */
  datatype GitlabAttribute =
    | Body | Title | Labels | Status | Project
    | Created | Completed | Updated | Assignee | Milestone
    | Iid | Priority | Type | Author

  /** Identifiers of attributes under a task record's root. */
  datatype Key =
    | Field(attribute: GitlabAttribute)  // a schema field's task key
    | CommentNew                         // the host's "new comment" attribute
    | Operation                          // the selected operation
    | Comment(number: int)               // comment attribute number `number`
    | OperationOption(name: string)      // one offered operation, keyed by its label

  /** What a comment attribute carries. */
  datatype CommentEntry = CommentEntry(author: string, created: int, text: string, number: int)

  datatype Value = Unset | Text(text: string) | CommentOf(entry: CommentEntry)

  /** The host's task record, reduced to its root attributes. */
  class TaskData {
    const taskId: string
    const isNew: bool
    var attributes: map<Key, Value>

    constructor (taskId: string, isNew: bool)
      ensures this.taskId == taskId && this.isNew == isNew
      ensures attributes == map[]
    {
      this.taskId := taskId;
      this.isNew := isNew;
      attributes := map[];
    }

    /** Creates (or replaces) an attribute with no value. */
    method CreateAttribute(key: Key)
      modifies this
      ensures attributes == old(attributes)[key := Unset]
    {
      attributes := attributes[key := Unset];
    }

    /** Sets the value of an existing attribute. */
    method SetValue(key: Key, value: string)
      requires key in attributes
      modifies this
      ensures attributes == old(attributes)[key := Text(value)]
    {
      attributes := attributes[key := Text(value)];
    }

    /** Fills an existing attribute with a comment entry. */
    method SetComment(key: Key, entry: CommentEntry)
      requires key in attributes
      modifies this
      ensures attributes == old(attributes)[key := CommentOf(entry)]
    {
      attributes := attributes[key := CommentOf(entry)];
    }

    /** The attribute's value; an attribute without a text value reads as "". */
    function GetValue(key: Key): string
      reads this
      requires key in attributes
    {
      match attributes[key]
      case Text(t) => t
      case _ => ""
    }
  }
}

/**
 * The issue a tracker hands back (`src/gibr/issue.py`), as far as the
 * commands read or change it, and the answer of a tracker lookup.
 */
module Issues {
  import opened Wrappers

  /**
   * The fields of an issue. `id` is kept as the text an f-string renders it
   * to; `assignee` is `None` when the tracker reports nobody.
   */
  datatype IssueRecord = IssueRecord(id: string, title: string, assignee: Option<string>,
                                     kind: string, translate: bool)

  /** A tracker lookup: the issue, or any failure to reach the tracker or find the issue. */
  datatype Lookup = Found(issue: IssueRecord) | LookupFailed

  type Tracker = string -> Lookup

  /** The issue object a command holds; only `translate` is ever reassigned. */
  class Issue {
    const id: string
    const title: string
    const assignee: Option<string>
    const kind: string
    var translate: bool

    constructor (r: IssueRecord)
      ensures Record() == r
    {
      id := r.id;
      title := r.title;
      assignee := r.assignee;
      kind := r.kind;
      translate := r.translate;
    }

    /** The issue's current fields. */
    function Record(): IssueRecord
      reads this
    {
      IssueRecord(id, title, assignee, kind, translate)
    }

    /** `issue.translate = enabled`: the only field that changes. */
    method SetTranslate(enabled: bool)
      modifies this
      ensures Record() == old(Record()).(translate := enabled)
    {
      translate := enabled;
    }
  }
}

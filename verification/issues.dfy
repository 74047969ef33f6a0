/**
 * Validation issues as the schema checks report them: where in the input the
 * problem is, and which check failed.
 */
module Issues {
  import opened JsValue

  /** The check that failed, named as the schema library names it in an issue's `type`. */
  datatype IssueKind = ExpectedObject | ExpectedString | ExpectedNumber | ExpectedNonEmpty

  /** An issue at a key path (empty for the input itself). */
  datatype Issue = Issue(path: seq<string>, kind: IssueKind)

  function KindName(kind: IssueKind): string {
    match kind
    case ExpectedObject => "object"
    case ExpectedString => "string"
    case ExpectedNumber => "number"
    case ExpectedNonEmpty => "non_empty"
  }

  /** An issue as it is listed under `errors`: the failed check and the keys leading to the value. */
  function IssueJson(issue: Issue): Value {
    Obj([("type", Str(KindName(issue.kind))),
         ("path", Arr(seq(|issue.path|, i requires 0 <= i < |issue.path| => Str(issue.path[i]))))])
  }

  function IssuesJson(issues: seq<Issue>): (v: Value)
    ensures v.Arr? && |v.items| == |issues|
  {
    Arr(seq(|issues|, i requires 0 <= i < |issues| => IssueJson(issues[i])))
  }
}

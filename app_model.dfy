/** Values that the Application registry passes around: the Application record itself,
    the outcome kinds of the controller's operations, page requests and the audit trace
    that a soft delete leaves behind. */
module AppModel {

  /** An Application record. The wire object and the entity carry the same fields and the
      controller copies one into the other field by field, so one datatype stands for both.
      Audit columns (creator, modifier, timestamps) are filled in by the store and left out. */
  datatype App = App(
    appId: string,
    name: string,
    orgId: string,
    orgName: string,
    ownerName: string,
    ownerEmail: string)

  datatype Option<T> = None | Some(value: T)

  /** What a controller operation answers: its value, or the kind of exception it throws
      (BadRequestException or NotFoundException). Operations that return nothing use `Result<()>`. */
  datatype Result<T> = Ok(value: T) | BadRequest | NotFound

  /** A page request: the zero-based page number and the number of records per page. */
  datatype PageRequest = PageRequest(page: nat, size: nat)

  /** A soft-deleted row stays in storage; this is what remains of it: the record and the
      operator who deleted it. */
  datatype Deletion = Deletion(app: App, operator: string)

  /** The characters that Java's Character.isWhitespace accepts. */
  predicate IsWhitespace(c: char)
  {
    var n := c as int;
    (9 <= n <= 13) || (28 <= n <= 32) || n == 0x1680
    || (0x2000 <= n <= 0x2006) || (0x2008 <= n <= 0x200A)
    || n == 0x2028 || n == 0x2029 || n == 0x205F || n == 0x3000
  }

  /** A request parameter is blank when it is absent, empty, or whitespace only. */
  predicate IsBlank(s: Option<string>): (r: bool)
    ensures s.None? ==> r
    ensures s == Some("") ==> r
    ensures s.Some? && (exists i :: 0 <= i < |s.value| && !IsWhitespace(s.value[i])) ==> !r
  {
    s.None? || forall i :: 0 <= i < |s.value| ==> IsWhitespace(s.value[i])
  }
}

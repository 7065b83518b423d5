/** The error answers of the routes, with the HTTP status each one carries. */
module Errors {
  import opened PermissionModel

  datatype Error =
    | MissingWorkflowId           // the gate found no workflow id in the path
    | AccessDenied                // the gate found no permission record
    | RoleRequired(required: Role)  // the record's role ranks below the required one
    | InvalidBody                 // the request body failed the route's body schema
    | WorkflowNotFound
    | VersionNotFound
    | TaskTypeNotFound
    | AlreadyPublished            // publishing a version that is already published
    | SchemaViolation             // a record failed the schema's validators on save
    | DuplicateKey                // a unique index rejected the write
    | BadPaging                   // a page or limit the list cannot serve
  {
    /** The HTTP status the route answers with. Schema and index failures are
        thrown inside the handler and reach its catch branch. */
    function StatusCode(): (code: nat)
      ensures 400 <= code <= 500
      ensures code == 403 <==> AccessDenied? || RoleRequired?
      ensures code == 404 <==> WorkflowNotFound? || VersionNotFound? || TaskTypeNotFound?
    {
      match this
      case MissingWorkflowId => 400
      case AccessDenied => 403
      case RoleRequired(_) => 403
      case InvalidBody => 400
      case WorkflowNotFound => 404
      case VersionNotFound => 404
      case TaskTypeNotFound => 404
      case AlreadyPublished => 400
      case SchemaViolation => 500
      case DuplicateKey => 500
      case BadPaging => 500
    }
  }
}

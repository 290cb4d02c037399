/**
 * The JSON shapes exchanged between the Flask backend (app.py) and the two
 * React pages, reduced to the fields the modelled logic reads or writes.
 */
module Api {
  import opened JsBuiltins

  /** A backend-assigned row id (an auto-increment primary key, so at least 1). */
  type Id = x: int | 0 < x witness 1

  /**
   * An `{id, name}` row of the dropdown endpoints: `/api/clients-dropdown`,
   * `/api/projects-by-client/<id>` and `/api/team-members`.
   */
  datatype Choice = Choice(id: Id, name: string)

  /**
   * One row of `GET /api/payments`. `projectId` is the row's `project_id`
   * field, which the listing of app.py never includes (always None there);
   * the project page still tests for it.
   */
  datatype PaymentListing = PaymentListing(
    id: Id,
    totalAmount: real,
    paidAmount: real,
    pendingAmount: real,
    paymentDate: string,
    clientName: string,
    projectName: string,
    projectId: Option<Id>)

  /** One entry of a project's `team_members` array in `GET /api/projects`: `{id, name, role}`. */
  datatype TeamListing = TeamListing(id: Id, name: string, role: string)

  /**
   * The body of `POST /api/projects` and `PUT /api/projects/<id>`. A None
   * field is a key the body does not carry; a None entry of `teamMembers` is
   * an element without a `team_member_id` key.
   */
  datatype ProjectRequest = ProjectRequest(
    name: Option<string>,
    clientId: Option<Id>,
    description: Option<string>,
    status: Option<string>,
    teamMembers: seq<Option<Id>>)

  /**
   * The body of `POST /api/payments` and `PUT /api/payments/<id>`; a None
   * amount is the `null` that `JSON.stringify` writes for NaN.
   */
  datatype PaymentRequest = PaymentRequest(
    clientId: Id,
    projectId: Id,
    totalAmount: Option<real>,
    paidAmount: Option<real>,
    paymentDate: string)
}

/** The records the dashboard exchanges with its REST API (types/index.ts).
    Date strings the code only displays stay opaque strings; the ones it
    computes with become integers (a millisecond timestamp for an
    inventory item's creation time, a UTC day number for an email log). */
module Types {
  import opened Wrappers

  /** The role-name union `"Admin" | "Manager" | "Viewer"`. */
  datatype Role = Viewer | Manager | Admin

  function RoleName(r: Role): string {
    match r
    case Viewer => "Viewer"
    case Manager => "Manager"
    case Admin => "Admin"
  }

  /** Reading a role name back: only the three exact spellings are roles. */
  function ParseRoleName(name: string): (r: Option<Role>)
    ensures r.Some? ==> RoleName(r.value) == name
    ensures r.None? ==> forall x: Role :: RoleName(x) != name
  {
    if name == "Viewer" then Some(Viewer)
    else if name == "Manager" then Some(Manager)
    else if name == "Admin" then Some(Admin)
    else None
  }

  /** The role object embedded in a user. At run time `name` is whatever
      string the server sent, so it is not narrowed to `Role` here. */
  datatype RoleRef = RoleRef(id: int, name: string, description: string)

  datatype User = User(
    id: int,
    username: string,
    email: string,
    role: RoleRef,
    isActive: bool,
    lastLogin: Option<string>,
    createdAt: string,
    updatedAt: string)

  /** An inventory item. `createdAt` is the item's creation time in
      milliseconds; prices are integer cents. */
  datatype InventoryItem = InventoryItem(
    id: int,
    name: string,
    description: string,
    quantity: int,
    unitPriceCents: int,
    sku: string,
    createdAt: int)

  datatype Merchant = Merchant(id: int, name: string, email: string, isActive: bool)

  /** Email log status `"sent" | "failed" | "pending"`. */
  datatype EmailStatus = Sent | Failed | Pending

  function EmailStatusName(s: EmailStatus): string {
    match s
    case Sent => "sent"
    case Failed => "failed"
    case Pending => "pending"
  }

  /** An email log; `createdDay` is the UTC day number of `createdAt`. */
  datatype EmailLog = EmailLog(id: int, recipientEmail: string, status: EmailStatus, createdDay: int)

  datatype PaginationMeta = PaginationMeta(
    page: int,
    limit: int,
    total: int,
    totalPages: int,
    hasNext: bool,
    hasPrev: bool)

  /** The body of a send-report request. */
  datatype SendInventoryReport = SendInventoryReport(
    recipients: seq<string>,
    subject: Option<string>,
    customMessage: Option<string>)

  datatype SortOrder = Asc | Desc

  function SortOrderName(o: SortOrder): string {
    match o
    case Asc => "asc"
    case Desc => "desc"
  }

  datatype InventoryQueryParams = InventoryQueryParams(
    page: Option<int>,
    limit: Option<int>,
    search: Option<string>,
    sort: Option<string>,
    order: Option<SortOrder>)

  /** `status` is a string: the users table stores `""` for "all". */
  datatype UserQueryParams = UserQueryParams(
    page: Option<int>,
    limit: Option<int>,
    role: Option<string>,
    status: Option<string>,
    search: Option<string>)

  datatype MerchantQueryParams = MerchantQueryParams(
    page: Option<int>,
    limit: Option<int>,
    search: Option<string>,
    status: Option<string>)
}

/** The values the marketplace stores and passes around: agent descriptors,
    stored agents, execution records, principals and the error kinds its
    handlers raise. */
module Types {

  datatype Option<+T> = None | Some(value: T)

  datatype Result<+R> = Success(value: R) | Failure(error: Error)

  /** The distinct failures of the handlers: a request body that fails
      validation, an unknown id, a principal without the right role or
      ownership, and an API key that is not in the key table. */
  datatype Error = Invalid | NotFound | Forbidden | Unauthorized

  /** An open-ended JSON document: `parameters`, `input_data`, `auth_details`,
      `pricing_details` and `result` are carried through without being
      interpreted. */
  datatype Json =
    | JNull
    | JBool(b: bool)
    | JNum(n: int)
    | JStr(s: string)
    | JArr(items: seq<Json>)
    | JObj(fields: map<string, Json>)

  /** A JSON object: the shape of every field the request bodies declare as
      `Dict`. A body whose field is any other JSON value is refused by
      validation before a handler runs, so the handlers only ever see objects. */
  type JsonObject = j: Json | j.JObj? witness JObj(map[])

  /** One named operation an agent offers. */
  datatype Capability = Capability(name: string, description: string, parameters: Option<JsonObject>)

  /** The request body of registration and of update: every field a client
      supplies. `authType` is checked separately (Access.ValidateAuthType). */
  datatype Registration = Registration(
    name: string,
    description: string,
    version: string,
    author: string,
    contactEmail: Option<string>,
    homepageUrl: Option<string>,
    apiEndpoint: string,
    capabilities: seq<Capability>,
    authType: string,
    authDetails: Option<JsonObject>,
    pricingModel: Option<string>,
    pricingDetails: Option<JsonObject>,
    tags: seq<string>)

  /** A stored agent: the submitted registration fields plus what the
      registry stamps on it. `updatedAt` is absent until the first update. */
  datatype Agent = Agent(
    id: string,
    reg: Registration,
    createdAt: string,
    createdBy: string,
    status: string,
    updatedAt: Option<string>)

  /** One entry of an agent's execution history. */
  datatype Execution = Execution(
    id: string,
    agentId: string,
    userId: string,
    input: JsonObject,
    parameters: Option<JsonObject>,
    status: string,
    createdAt: string,
    completedAt: string,
    result: JsonObject)

  /** The identity behind a request. */
  datatype Principal = Principal(userId: string, role: string)

  const ActiveStatus: string := "active"
  const CompletedStatus: string := "completed"
  const AdminRole: string := "admin"
}

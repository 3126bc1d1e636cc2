/** The claims a verified bearer token carries. Signing and verifying tokens
    are not modelled: verification enters the model as a partial function. */
module Jwt {
  import opened Wrappers

  datatype Role = Doctor | Patient | Premed | Admin

  datatype Claims = Claims(
    sub: string,                  // the user's id
    role: Role,
    hospitalId: Option<string>,
    hospitalCode: Option<string>,
    patientId: Option<string>,
    loginId: string)

  /** JavaScript truthiness of an optional string: present and non-empty. */
  predicate Truthy(s: Option<string>) {
    s.Some? && s.value != ""
  }
}

/** The gate in front of every Guard operation. */
module Gate {
  import opened Common
  import opened Framing

  datatype Purpose = Unspecified | PasskeyLogin | RowEncrypt | RowDecrypt | BlindIndex

  /** `purpose` is the number on the wire. */
  datatype Context = Context(tenantId: Slice, subjectId: Slice, purpose: int, requestId: Slice)

  datatype Status = InvalidArgument | PermissionDenied | ResourceExhausted | Internal

  /** A number the contract does not name counts as unspecified. */
  function PurposeOf(n: int): Purpose
  {
    if n == 1 then PasskeyLogin
    else if n == 2 then RowEncrypt
    else if n == 3 then RowDecrypt
    else if n == 4 then BlindIndex
    else Unspecified
  }

  /** The number of a purpose on the wire. */
  ghost predicate OnTheWire(n: int, p: Purpose)
  {
    match p
    case PasskeyLogin => n == 1
    case RowEncrypt => n == 2
    case RowDecrypt => n == 3
    case BlindIndex => n == 4
    case Unspecified => n < 1 || n > 4
  }

  /** None when the request may proceed. A passing request names a request, a
      tenant and, where one is needed, a subject, and states exactly this purpose;
      one that states another purpose is denied, and any other is malformed. */
  function Validate(ctx: Option<Context>, want: Purpose, subjectRequired: bool): (refusal: Option<Status>)
    ensures want != Unspecified ==>
      (refusal == None <==>
        && ctx.Some? && ctx.value.requestId != [] && ctx.value.tenantId != []
        && (subjectRequired ==> ctx.value.subjectId != [])
        && OnTheWire(ctx.value.purpose, want))
    ensures refusal == Some(PermissionDenied) <==>
      && ctx.Some? && ctx.value.requestId != [] && ctx.value.tenantId != []
      && (subjectRequired ==> ctx.value.subjectId != [])
      && 1 <= ctx.value.purpose <= 4 && !OnTheWire(ctx.value.purpose, want)
    ensures refusal.Some? && refusal != Some(PermissionDenied) ==> refusal == Some(InvalidArgument)
  {
    if ctx.None? then Some(InvalidArgument)
    else if ctx.value.requestId == [] then Some(InvalidArgument)
    else if ctx.value.tenantId == [] then Some(InvalidArgument)
    else if subjectRequired && ctx.value.subjectId == [] then Some(InvalidArgument)
    else
      var got := PurposeOf(ctx.value.purpose);
      if got == Unspecified then Some(InvalidArgument)
      else if got != want then Some(PermissionDenied)
      else None
  }
}

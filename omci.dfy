/** OMCI result and reason codes (ITU-T G.988 section 11.2.1) and their string names. */
module Omci {

  datatype ReasonCode =
    | Success | ProcessingError | NotSupported | ParameterError | UnknownEntity
    | UnknownInstance | DeviceBusy | InstanceExists | AttributeFailure | OperationCancelled

  /** The numeric value of each member of `ReasonCodes`. */
  function Value(rc: ReasonCode): nat
  {
    match rc
    case Success => 0
    case ProcessingError => 1
    case NotSupported => 2
    case ParameterError => 3
    case UnknownEntity => 4
    case UnknownInstance => 5
    case DeviceBusy => 6
    case InstanceExists => 7
    case AttributeFailure => 9
    case OperationCancelled => 255
  }

  /** The name of each member of `ReasonCodes`. */
  function Name(rc: ReasonCode): string
  {
    match rc
    case Success => "Success"
    case ProcessingError => "ProcessingError"
    case NotSupported => "NotSupported"
    case ParameterError => "ParameterError"
    case UnknownEntity => "UnknownEntity"
    case UnknownInstance => "UnknownInstance"
    case DeviceBusy => "DeviceBusy"
    case InstanceExists => "InstanceExists"
    case AttributeFailure => "AttributeFailure"
    case OperationCancelled => "OperationCancelled"
  }

  /** `omciError_to_str`: a chain of equality tests against the reason codes. */
  function OmciErrorToStr(code: int): (r: string)
    ensures forall rc :: Value(rc) == code ==> r == Name(rc)
    ensures r == "OperationCancelled" ==> forall rc :: rc != OperationCancelled ==> Value(rc) != code
  {
    if code == 0 then "Success"
    else if code == 1 then "ProcessingError"
    else if code == 2 then "NotSupported"
    else if code == 3 then "ParameterError"
    else if code == 4 then "UnknownEntity"
    else if code == 5 then "UnknownInstance"
    else if code == 6 then "DeviceBusy"
    else if code == 7 then "InstanceExists"
    else if code == 9 then "AttributeFailure"
    else "OperationCancelled"
  }

  /** A value that names no other member of `ReasonCodes` maps to "OperationCancelled". */
  lemma UnlistedCodes(code: int)
    requires forall rc :: rc != OperationCancelled ==> Value(rc) != code
    ensures OmciErrorToStr(code) == "OperationCancelled"
  {
    assert Value(Success) != code && Value(ProcessingError) != code && Value(NotSupported) != code;
    assert Value(ParameterError) != code && Value(UnknownEntity) != code && Value(UnknownInstance) != code;
    assert Value(DeviceBusy) != code && Value(InstanceExists) != code && Value(AttributeFailure) != code;
  }

  /** Code 8, which `ReasonCodes` does not define, falls through to the last branch. */
  lemma UndefinedCodes()
    ensures OmciErrorToStr(8) == "OperationCancelled"
    ensures OmciErrorToStr(255) == "OperationCancelled"
    ensures OmciErrorToStr(-1) == "OperationCancelled"
  {
  }
}

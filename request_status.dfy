/** The status of an RPC request: a status code and a growing list of descriptions. */
module Rpc {

  /** Status codes; OK is the one the class treats specially. */
  datatype RequestStatusCode =
    | Ok
    | NotStarted
    | InProgress
    | Error
    | ErrorTimeoutDiscovery
    | ErrorTimeoutWaitForArbitration

  class RequestStatus {
    var code: RequestStatusCode
    var descriptionList: seq<string>

    /** A status with a code and one description. */
    constructor WithDescription(code: RequestStatusCode, description: string)
      ensures this.code == code && descriptionList == [description]
      ensures Successful() <==> code == Ok
    {
      this.code := code;
      descriptionList := [description];
    }

    /** A status with a code and no description. */
    constructor (code: RequestStatusCode)
      ensures this.code == code && descriptionList == []
      ensures Successful() <==> code == Ok
    {
      this.code := code;
      descriptionList := [];
    }

    method SetCode(code: RequestStatusCode)
      modifies this`code
      ensures this.code == code && descriptionList == old(descriptionList)
      ensures Successful() <==> code == Ok
    {
      this.code := code;
    }

    /** Replaces the whole description list. */
    method SetDescriptionList(description: seq<string>)
      modifies this`descriptionList
      ensures descriptionList == description && code == old(code)
      ensures Successful() == old(Successful())
    {
      descriptionList := description;
    }

    /** Appends one description after the existing ones. */
    method AddDescription(additionalDescription: string)
      modifies this`descriptionList
      ensures descriptionList == old(descriptionList) + [additionalDescription] && code == old(code)
      ensures Successful() == old(Successful())
    {
      descriptionList := descriptionList + [additionalDescription];
    }

    /** A request succeeded exactly when its code is OK. */
    function Successful(): (r: bool)
      reads this`code
      ensures r <==> code == Ok
    {
      code == Ok
    }
  }
}

/** The numeric error codes a client receives in the `errorCode` field of an error body. */
module ErrorCodes {

  /** A top-level error without further detail. */
  const GeneralError: int := 41000
  /** The request does not satisfy its model state; deliberately the same number as GeneralError. */
  const ModelStateError: int := 41000
  /** A required argument of the business operation is missing. */
  const ArgumentMissingError: int := 42140
  /** An argument of the business operation is invalid. */
  const ArgumentInvalidError: int := 42145
  /** The business object is not present. */
  const ObjectNotFoundError: int := 42310
  /** The business object already exists. */
  const ObjectAlreadyExistsError: int := 42410
  /** The business object is a system one and cannot be changed or deleted. */
  const SystemObjectError: int := 42510

  /** The seven named codes, in declaration order. */
  const AllCodes: seq<int> := [GeneralError, ModelStateError, ArgumentMissingError,
    ArgumentInvalidError, ObjectNotFoundError, ObjectAlreadyExistsError, SystemObjectError]

  /** GeneralError and ModelStateError share one number. */
  lemma GeneralAndModelStateAlias()
    ensures GeneralError == ModelStateError == 41000
  {
  }

  /** Every code lies in [41000, 42510]. */
  lemma CodesInRange()
    ensures forall i :: 0 <= i < |AllCodes| ==> 41000 <= AllCodes[i] <= 42510
  {
  }

  /** Apart from the alias at positions 0 and 1, the codes are pairwise distinct. */
  lemma CodesDistinctExceptAlias()
    ensures |AllCodes| == 7
    ensures forall i, j :: 0 <= i < j < |AllCodes| ==>
      (AllCodes[i] == AllCodes[j] <==> i == 0 && j == 1)
  {
  }
}

/** Option and Result types shared by every module of the model. */
module Prelude {

  datatype Option<+T> = None | Some(value: T)

  /** The Python exceptions the modelled code can raise. */
  datatype Error =
    | LookupError
    | KeyError
    | ValidationError
    | ZeroDivisionError
    | UnboundLocalError
    | IntegrityError
    | NoResultFound
    | IdempotencyConflictError
    | MaxCasesExceeded
    | MaxEstimatedCostExceeded

  datatype Result<+T> = Ok(value: T) | Raised(error: Error)

  lemma SetGrows<T>(a: set<T>, b: set<T>, x: T, added: bool)
    requires x !in a && forall k :: k in b <==> k in a || (added && k == x)
    ensures |b| == |a| + (if added then 1 else 0)
  {
    assert b == if added then a + {x} else a;
  }
}

/** Small shared vocabulary: optional values and the identities of stateless components. */
module Common {

  datatype Option<T> = None | Some(value: T)

  /** Stand-in for a thrown exception: either a value or the reason the call threw. */
  datatype Result<T> = Ok(value: T) | Err(error: string)

  /** A `TrashDetector` holds no state; only its identity matters (it is compared by reference). */
  type DetectorId = nat

  /** A `BoatTop` holds no state; only its identity travels with `OnTrashHit`. */
  type BoatId = nat
}

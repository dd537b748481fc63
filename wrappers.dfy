/** Option and Result, and the ways a build can stop.

    Every Error case stands for a point where the JavaScript would throw
    (reading a property of `undefined`, calling `undefined`, `new Array(-1)`). */
module Wrappers {

  datatype Option<+T> = None | Some(value: T)

  datatype Error =
    | NodeNotFound(key: string)              // getNode(...).node is undefined and is then used
    | SeamNodeNotFound(edgeKey: string)      // interFaceConnections.get(k)[i] is undefined
    | MalformedFace(face: string)            // a face whose `nodes` is not three names
    | EdgeNotFound(key: string)              // edges.near.get(k) is undefined and `.length` is read
    | UnknownBaseShape(name: string)         // blueprintMap[baseShape] is undefined or a subdivider
    | UnknownSubdivisionClass(name: string)  // blueprintMap[layer.class] is undefined
    | IndexOutOfRange(index: int)            // blueprint.layers[i] is undefined
    | InvalidLength(length: int)             // new Array(n) with n < 0

  datatype Result<+T> = Success(value: T) | Failure(error: Error) {

    predicate IsFailure() {
      Failure?
    }

    function PropagateFailure<U>(): Result<U>
      requires Failure?
    {
      Failure(error)
    }

    function Extract(): T
      requires Success?
    {
      value
    }
  }
}

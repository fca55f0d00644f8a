/** Option and Result values, and the exceptions the decoding pipeline throws, as data. */
module Wrappers {

  datatype Option<+T> = None | Some(value: T)

  /** The exceptions raised by the pipeline. Each names the check that raised it. */
  datatype Error =
    | BufferFull                                        // Buffer.store on a full buffer
    | ChannelMismatch(expected: int, got: int)          // Buffer.store with a frame of the wrong length
    | SamplingTheorem                                   // CombFilter: samplingFreq <= 2 * filterFreq
    | InconsistentMatrix(row: int, expected: int, found: int) // ragged JSON matrix
    | DimensionMismatch                                 // any other shape check
    | IndexOutOfRange(index: int, bound: int)           // WeightMatrix: index >= dimension
    | DtOutOfRange                                      // EchoStateNetwork.dt outside [0, 1]
    | RangeOrder(dimension: int)                        // lower range bound above upper bound
    | UnsupportedOutputNormalization                    // ESN_v_003: outOffset / outRange not neutral
    | LabelOutOfRange(given: int)                       // GMLVQ.GetOutput: label outside [1, 9]
    | MissingResource(path: string)                     // a configuration file does not exist
    | WrongModelCount(count: int)                       // GMLVQController: not exactly two models
    | MalformedJson                                     // a JSON node of the wrong kind or size
    | ElectrodeOutOfRange(which: int, found: int)       // SimpleStateMachineController: electrode not in [0, 7]
    | ThresholdOutOfRange(which: int, threshold: real) // SimpleStateMachineController: threshold not in [0, 1]
    | NegativeLength(length: int)                       // an array allocated with a negative length

  datatype Result<+T> = Ok(value: T) | Err(error: Error) {
    predicate IsFailure() { Err? }
    function PropagateFailure<U>(): Result<U>
      requires Err?
    {
      Err(error)
    }
    function Extract(): T
      requires Ok?
    {
      value
    }
  }

  /** The outcome of an operation that returns nothing but may throw. */
  datatype Outcome = Pass | Fail(error: Error)
}

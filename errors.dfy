/** The exceptions the processor lets escape to its caller. */
module Errors {

  datatype Exception =
    /** A `ValueError` raised by the processor itself, with its message. */
    | ValueError(message: string)
    /** An `OSError` raised while creating the scratch directory. */
    | OSError(message: string)
    /** An exception raised by the extraction service or the muxing tool and re-raised unchanged. */
    | External(message: string)
}

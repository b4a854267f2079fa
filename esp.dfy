// The esp_err_t results the firmware functions return.
module Esp {
  datatype EspErr =
    | EspOk
    | EspFail
    | EspErrNoMem
    | EspErrInvalidArg
    | EspErrInvalidState
    | EspErrInvalidSize
    | EspErrNotFound
    | EspErrInvalidCrc
    | EspErrNvsNotFound
}

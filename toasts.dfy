/** The pop-up messages the screens raise, recorded as values rather than shown. */
module Toasts {

  /** `toast.success(message)` and `toast.error(message)`. */
  datatype Toast = SuccessToast(message: string) | ErrorToast(message: string)
}

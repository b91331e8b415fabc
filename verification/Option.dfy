/** The optional value used throughout the model (the source uses `absl::optional`). */
module Option {
  datatype Option<+T> = None | Some(value: T) {
    function GetOr(default: T): T {
      match this
      case Some(v) => v
      case None => default
    }
  }
}

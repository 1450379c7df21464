/** A Kotlin nullable value `T?`: either absent or present. */
module Optional {

  datatype Option<+T> = None | Some(value: T)
}

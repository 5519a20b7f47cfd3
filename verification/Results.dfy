/** The optional value shared by every module of the project. */
module Results {

  datatype Option<+T> = None | Some(value: T)
}

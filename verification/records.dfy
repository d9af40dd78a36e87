/** The one entity of the application, shared by the page and the API. */
module Records {

  /** A value that may be absent (`T | null` in the source). */
  datatype Option<T> = None | Some(value: T)

  /** A student record: an id assigned by storage, a name and an age. */
  datatype Student = Student(id: int, name: string, age: int)
}

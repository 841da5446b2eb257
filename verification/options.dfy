/** A nullable value: `None` stands for a C# `null` reference. */
module Options {

  datatype Option<+T> = None | Some(value: T)

}

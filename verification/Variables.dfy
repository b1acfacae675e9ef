/** A runtime variable: an environment key and its value. */
module Variables {

  datatype Variable = Variable(key: string, value: string)

  function KeyOf(v: Variable): string {
    v.key
  }
}

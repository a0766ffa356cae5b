/** Tools and how they are loaded into a prompt. */
module Tools {

  type ToolId = string

  datatype ToolLoadMode = Eager | Deferred
}

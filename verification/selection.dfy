/** A motor selection as scripts store it: the keyword `'all'` or a list of motor names. */
module Selections {

  datatype Selection = All | Names(names: seq<string>)
}

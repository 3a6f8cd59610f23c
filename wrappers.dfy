/** The Option type used for values that may be missing: a sheet whose rows could
    not be read, a workbook that could not be fetched, a bot that has never synced. */
module Wrappers {

  datatype Option<+T> = None | Some(value: T)
}

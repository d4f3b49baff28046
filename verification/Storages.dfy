/** How a storage behaves for one operation: whether it can be read, and whether it can be written. */
module Storages {
  datatype Io = Io(readOk: bool, writeOk: bool)
}

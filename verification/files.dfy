/** A browser `File` as the hooks use it: its name and size travel with its bytes. */
module Files {
  datatype File = File(name: string, size: nat)
}

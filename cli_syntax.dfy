/** The argument prefixes of the command language. */
module CliSyntax {

  datatype Prefix = NamePrefix | PhonePrefix | SchoolPrefix | AddressPrefix | TagPrefix
                  | DayPrefix | StartPrefix | EndPrefix
}

/** The repository carries the program twice, with small differences between the copies. */
module Variants {

  /** `universal_ticket_printer.py` at the repository root, or the copy under `TicketPrinter/`. */
  datatype Variant = RootModule | TicketPrinterModule
}

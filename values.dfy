/** What a cell holds, in a pandas frame and in an openpyxl worksheet alike. */
module Values {
  /** A cell value: nothing (pandas' NaN, openpyxl's None), a string or an integer. */
  datatype Value = Empty | Str(s: string) | Number(n: int)
}

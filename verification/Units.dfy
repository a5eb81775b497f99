/** Sizes that host and guest count in. */
module Units {
  const GIB: nat := 1024 * 1024 * 1024
}

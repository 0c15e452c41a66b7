/** The outcome of a remote call, w7/src/master/helpers.h. */
module Status {
  datatype ReturnStatus = FAILED | SUCCESS | TIMEDOUT
}

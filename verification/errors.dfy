/** The errors the resolvers raise while turning a request into SQL. */
module ExecutionErrors {
  datatype ExecutionError = Validation(message: string) | Generic(message: string)
}

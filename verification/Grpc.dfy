/** The gRPC status codes the service returns. */
module Grpc {
  datatype Code =
    | InvalidArgument | NotFound | AlreadyExists | PermissionDenied | FailedPrecondition
    | Aborted | Internal | Unavailable | Unauthenticated | Unknown
}

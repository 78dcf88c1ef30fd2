/** Failure-carrying values for the operations of the saving library:
    the Python exceptions that the modelled code raises become `Err` values. */
module Results {

  datatype Option<+T> = None | Some(value: T)

  /** The exception classes the modelled code can raise. */
  datatype Error =
    | ValueError          // bad extension, unknown weights format, missing weights member, h5 group exists
    | ImportError         // h5py not installed
    | KeyError            // missing archive member or missing "vars" group at the h5 root
    | TypeError           // joining onto a `None` temporary directory; `dict()` on a loaded npz root entry
    | OSError             // h5py opening a file or member that is not HDF5
    | UnpicklingError     // np.load falling back to pickle on bytes that are neither npz, npy nor pickle
    | EOFError            // np.load on an empty member
    | UnboundLocalError   // `weights_store` read before assignment in load_weights_only
    | AttributeError      // `.tolist()` on a plain dict in a write-mode npz store

  datatype Result<+T> = Ok(value: T) | Err(error: Error)

  /** Outcome of an operation that returns nothing on success. */
  datatype Outcome = Pass | Fail(error: Error)
}
